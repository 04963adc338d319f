/**
 * Tenant isolation over whole runs of INSERT, UPDATE, DELETE and SELECT statements issued by
 * any mix of sessions against a database whose row-security catalogue enforces a policy file.
 */
module Isolation {
  import opened Common
  import opened SqlModel
  import opened PolicyCompiler
  import opened RowSecurity
  import opened Visibility

  // ---- Ownership along parent keys

  /** Kinds that pass the question of visibility on to a parent row. */
  predicate HasParent(e: Entry) {
    e.kind in {Parent, TenantOrParent}
  }

  /** From this table up, parent keys only lead through `parent` and `tenant_or_parent` tables to a `tenant` one. */
  ghost predicate ChainDecided(sec: Security, cfg: Config, key: string)
    requires Enforces(sec, cfg) && key in cfg.entries
    decreases Rank(sec, key)
  {
    var e := cfg.entries[key];
    if HasParent(e) then
      ParentIsBelow(sec, cfg, key);
      ChainDecided(sec, cfg, e.parent)
    else e.kind == Tenant
  }

  /** "id" is a key of every table that is named as a parent. */
  ghost predicate UniqueParentIds(cfg: Config, db: Database) {
    forall key | key in cfg.entries && HasParent(cfg.entries[key]) :: UniqueIds(Rows(db, cfg.entries[key].parent))
  }

  ghost predicate UniqueIds(rows: Table) {
    forall i, j | i in rows && j in rows && Get(rows[i], "id") != Null && Get(rows[i], "id") == Get(rows[j], "id") ::
        i == j
  }

  predicate Stamped(columns: Columns, row: Row) {
    StampColumn(columns).Some? && Get(row, StampColumn(columns).value) != Null
  }

  /** The stored row that the foreign key points at; None when it is NULL or dangling. */
  ghost function ParentRow(db: Database, e: Entry, row: Row): (parent: Option<Row>)
    ensures parent.Some? ==>
              parent.value in Rows(db, e.parent).Values && Eq3(Get(parent.value, "id"), Get(row, e.fk)) == True
    ensures parent.None? ==>
              forall id | id in Rows(db, e.parent) :: Eq3(Get(Rows(db, e.parent)[id], "id"), Get(row, e.fk)) != True
  {
    if id :| id in Rows(db, e.parent) && Eq3(Get(Rows(db, e.parent)[id], "id"), Get(row, e.fk)) == True then
      Some(Rows(db, e.parent)[id])
    else None
  }

  lemma ParentIsBelow(sec: Security, cfg: Config, key: string)
    requires Enforces(sec, cfg) && key in cfg.entries && HasParent(cfg.entries[key])
    ensures cfg.entries[key].parent in cfg.entries && Rank(sec, cfg.entries[key].parent) < Rank(sec, key)
  {
    LookupBelow(sec, cfg, key);
    assert cfg.entries[key].parent in Reads(Lookup(cfg.entries[key]).value);
  }

  /** The first stamped row met when walking up the foreign keys, starting at the row itself. */
  ghost function FirstStamped(sec: Security, cfg: Config, db: Database, key: string, row: Row): Option<Hop>
    requires Enforces(sec, cfg) && key in cfg.entries && ChainDecided(sec, cfg, key)
    decreases Rank(sec, key)
  {
    assert EnforcedAt(sec, cfg, key);
    var e := cfg.entries[key];
    if e.kind != Parent && Stamped(cfg.columns[key], row) then Some(Hop(key, row))
    else if e.kind == Tenant then None
    else
      ParentIsBelow(sec, cfg, key);
      match ParentRow(db, e, row)
      case Some(parent) => FirstStamped(sec, cfg, db, e.parent, parent)
      case None => None
  }

  ghost predicate OwnedBy(cfg: Config, sess: Session, owner: Option<Hop>) {
    owner.Some? && owner.value.key in cfg.columns && OwnStamp(sess, cfg.columns[owner.value.key], owner.value.row)
  }

  /** The first stamped row decides: a NULL stamp passes the question on to the parent row, a null or dangling foreign
    * key ends it. */
  lemma {:induction false} VisibleIffFirstStampIsOwn(sec: Security, cfg: Config, db: Database, sess: Session,
                                                     key: string, row: Row)
    requires Enforces(sec, cfg) && key in cfg.entries && ChainDecided(sec, cfg, key)
    requires UniqueParentIds(cfg, db) && !IsPlatform(sess)
    ensures Sees(sec, db, sess, key, row) <==> OwnedBy(cfg, sess, FirstStamped(sec, cfg, db, key, row))
    decreases Rank(sec, key)
  {
    assert EnforcedAt(sec, cfg, key);
    var e := cfg.entries[key];
    if e.kind == Tenant {
      SeesStep(sec, cfg, db, sess, key, row);
    } else {
      ParentIsBelow(sec, cfg, key);
      match ParentRow(db, e, row) {
        case None =>
          StampPassesOn(sec, cfg, db, sess, key, row, None);
        case Some(parent) =>
          VisibleIffFirstStampIsOwn(sec, cfg, db, sess, e.parent, parent);
          StampPassesOn(sec, cfg, db, sess, key, row, FirstStamped(sec, cfg, db, e.parent, parent));
      }
    }
  }

  lemma StampPassesOn(sec: Security, cfg: Config, db: Database, sess: Session, key: string, row: Row,
                      above: Option<Hop>)
    requires Enforces(sec, cfg) && UniqueParentIds(cfg, db) && !IsPlatform(sess)
    requires key in cfg.entries && EnforcedAt(sec, cfg, key)
    requires HasParent(cfg.entries[key]) && cfg.entries[key].parent in sec.tables
    requires match ParentRow(db, cfg.entries[key], row)
             case None => above == None
             case Some(parent) => Sees(sec, db, sess, cfg.entries[key].parent, parent) <==> OwnedBy(cfg, sess, above)
    ensures Sees(sec, db, sess, key, row) <==>
              OwnedBy(cfg, sess, if cfg.entries[key].kind != Parent && Stamped(cfg.columns[key], row)
                                 then Some(Hop(key, row)) else above)
  {
    SeesParent(sec, cfg, db, sess, key, row);
  }

  /** What is not open in its own right is visible exactly when its parent row is. */
  lemma SeesParent(sec: Security, cfg: Config, db: Database, sess: Session, key: string, row: Row)
    requires Enforces(sec, cfg) && UniqueParentIds(cfg, db) && !IsPlatform(sess)
    requires key in cfg.entries && EnforcedAt(sec, cfg, key)
    requires HasParent(cfg.entries[key]) && cfg.entries[key].parent in sec.tables
    ensures var e, parent := cfg.entries[key], ParentRow(db, cfg.entries[key], row);
            Sees(sec, db, sess, key, row) <==>
              || Open(cfg, sess, key, row)
              || (parent.Some? && Sees(sec, db, sess, e.parent, parent.value)
                  && (e.kind == TenantOrParent ==> NullStamp(cfg.columns[key], row)))
  {
    SeesStep(sec, cfg, db, sess, key, row);
    match ParentRow(db, cfg.entries[key], row) {
      case None => NothingToBorrow(sec, cfg, db, sess, key, row);
      case Some(parent) => BorrowsFromParent(sec, cfg, db, sess, key, row, parent);
    }
  }

  /** A null or dangling foreign key borrows nothing. */
  lemma NothingToBorrow(sec: Security, cfg: Config, db: Database, sess: Session, key: string, row: Row)
    requires Ranked(sec) && key in cfg.entries && key in cfg.columns && HasParent(cfg.entries[key])
    requires ParentRow(db, cfg.entries[key], row) == None
    ensures !BorrowsFromSeen(sec, cfg, db, sess, key, row)
  {
  }

  /** With unique ids there is one parent row, so borrowing means that row is visible. */
  lemma BorrowsFromParent(sec: Security, cfg: Config, db: Database, sess: Session, key: string, row: Row, parent: Row)
    requires Ranked(sec) && UniqueParentIds(cfg, db) && key in cfg.entries && key in cfg.columns
    requires HasParent(cfg.entries[key])
    requires cfg.entries[key].parent in sec.tables && ParentRow(db, cfg.entries[key], row) == Some(parent)
    ensures BorrowsFromSeen(sec, cfg, db, sess, key, row) <==>
              && Sees(sec, db, sess, cfg.entries[key].parent, parent)
              && (cfg.entries[key].kind == TenantOrParent ==> NullStamp(cfg.columns[key], row))
  {
    var e := cfg.entries[key];
    assert UniqueIds(Rows(db, e.parent));
    var id :| id in Rows(db, e.parent) && Rows(db, e.parent)[id] == parent;
    if t, i :| && t in sec.tables && i in Rows(db, t)
               && Borrows(sec, cfg, sess, key, row, t, Rows(db, t)[i]) && Sees(sec, db, sess, t, Rows(db, t)[i])
    {
      assert t == e.parent && i == id;
    }
  }

  /** Where the walk up the parent keys ends: at the first row that does not pass the question on. A null or dangling
    * foreign key leaves it without an end. */
  ghost function Anchor(sec: Security, cfg: Config, db: Database, key: string, row: Row): (anchor: Option<Hop>)
    requires Enforces(sec, cfg) && key in cfg.entries
    ensures anchor.Some? ==> anchor.value.key in cfg.entries && anchor.value.key in cfg.columns
    ensures anchor.Some? ==> !PassesOn(cfg, anchor.value.key, anchor.value.row)
    decreases Rank(sec, key)
  {
    assert EnforcedAt(sec, cfg, key);
    if PassesOn(cfg, key, row) then
      ParentIsBelow(sec, cfg, key);
      match ParentRow(db, cfg.entries[key], row)
      case Some(parent) => Anchor(sec, cfg, db, cfg.entries[key].parent, parent)
      case None => None
    else Some(Hop(key, row))
  }

  /** The row leaves its visibility to its parent row. */
  predicate PassesOn(cfg: Config, key: string, row: Row)
    requires key in cfg.entries && key in cfg.columns
  {
    cfg.entries[key].kind == Parent || (cfg.entries[key].kind == TenantOrParent && NullStamp(cfg.columns[key], row))
  }

  /** For every policy file: off platform scope a row is visible exactly when the walk up its parent keys ends, and ends
    * at a visible row, whatever kind of table that row is in. */
  lemma {:induction false} VisibleIffAnchorIs(sec: Security, cfg: Config, db: Database, sess: Session, key: string,
                                              row: Row)
    requires Enforces(sec, cfg) && UniqueParentIds(cfg, db) && key in cfg.entries && !IsPlatform(sess)
    ensures var anchor := Anchor(sec, cfg, db, key, row);
            Sees(sec, db, sess, key, row) <==> anchor.Some? && Sees(sec, db, sess, anchor.value.key, anchor.value.row)
    decreases Rank(sec, key)
  {
    assert EnforcedAt(sec, cfg, key);
    if PassesOn(cfg, key, row) {
      ParentIsBelow(sec, cfg, key);
      SeesParent(sec, cfg, db, sess, key, row);
      match ParentRow(db, cfg.entries[key], row) {
        case None =>
        case Some(parent) => VisibleIffAnchorIs(sec, cfg, db, sess, cfg.entries[key].parent, parent);
      }
    }
  }

  // ---- Statements

  /** A statement names the rows it wants; the policies decide which of them it reaches. */
  datatype Stmt =
    | InsertRows(key: string, rows: Table)
    | UpdateRows(key: string, rows: Table)
    | DeleteRows(key: string, ids: set<nat>)

  /** The result of a SELECT of a whole table. */
  ghost function View(sec: Security, db: Database, sess: Session, key: string): Table
    requires Ranked(sec) && key in sec.tables
  {
    map id | id in Rows(db, key) && Sees(sec, db, sess, key, Rows(db, key)[id]) :: Rows(db, key)[id]
  }

  /** The stored rows an UPDATE or DELETE reaches: those its USING expression admits. */
  ghost function Reached(sec: Security, db: Database, sess: Session, key: string, cmd: Command, ids: set<nat>): set<nat>
    requires Ranked(sec) && key in sec.tables
  {
    set id | id in ids && id in Rows(db, key) && Admits(sec, db, sess, key, cmd, Using, Rows(db, key)[id])
  }

  /** Every new row passes WITH CHECK; otherwise the statement fails and changes nothing. */
  ghost predicate Checked(sec: Security, db: Database, sess: Session, key: string, cmd: Command, rows: Table,
                          ids: set<nat>)
    requires Ranked(sec) && key in sec.tables
  {
    forall id | id in rows && id in ids :: Admits(sec, db, sess, key, cmd, Check, rows[id])
  }

  ghost function Exec(sec: Security, db: Database, sess: Session, st: Stmt): Database
    requires Ranked(sec)
  {
    var key := st.key;
    if key !in sec.tables then db
    else match st
      case InsertRows(_, rows) =>
        if rows.Keys !! Rows(db, key).Keys && Checked(sec, db, sess, key, Insert, rows, rows.Keys)
        then db[key := Rows(db, key) + rows] else db
      case UpdateRows(_, rows) =>
        var hit := Reached(sec, db, sess, key, Update, rows.Keys);
        if Checked(sec, db, sess, key, Update, rows, hit)
        then db[key := Rows(db, key) + (map id | id in hit && id in rows :: rows[id])] else db
      case DeleteRows(_, ids) =>
        db[key := Rows(db, key) - Reached(sec, db, sess, key, Delete, ids)]
  }

  type Run = seq<(Session, Stmt)>

  ghost function RunAll(sec: Security, db: Database, run: Run): Database
    requires Ranked(sec)
    decreases |run|
  {
    if run == [] then db else RunAll(sec, Exec(sec, db, run[0].0, run[0].1), run[1..])
  }

  // ---- Safety over runs

  /** The row is stamped with a tenant that is not the session's. */
  predicate Foreign(cfg: Config, sess: Session, key: string, row: Row)
    requires key in cfg.entries && key in cfg.columns
  {
    HasStamp(cfg.entries[key].kind) && Stamped(cfg.columns[key], row) && !OwnStamp(sess, cfg.columns[key], row)
  }

  /** The row is shared by all tenants, or reserved to platform scope, by a NULL in its owner column. */
  predicate Reserved(cfg: Config, key: string, row: Row)
    requires key in cfg.entries && key in cfg.columns
  {
    match cfg.entries[key].kind
    case Tenant => NullStamp(cfg.columns[key], row)
    case TenantOrShared => NullStamp(cfg.columns[key], row)
    case AccountOrShared => Get(row, AccountColumn(cfg.entries[key])) == Null
    case _ => false
  }

  predicate OffLimits(cfg: Config, sess: Session, key: string, row: Row)
    requires key in cfg.entries && key in cfg.columns
  {
    Foreign(cfg, sess, key, row) || Reserved(cfg, key, row)
  }

  lemma ForeignIsHidden(sec: Security, cfg: Config, db: Database, sess: Session, key: string, row: Row)
    requires Enforces(sec, cfg) && key in cfg.entries && EnforcedAt(sec, cfg, key) && !IsPlatform(sess)
    requires Foreign(cfg, sess, key, row)
    ensures !Sees(sec, db, sess, key, row)
  {
    SeesStep(sec, cfg, db, sess, key, row);
  }

  lemma OffLimitsIsUnwritable(sec: Security, cfg: Config, db: Database, sess: Session, key: string, cmd: Command,
                              side: Side, row: Row)
    requires Enforces(sec, cfg) && key in cfg.entries && EnforcedAt(sec, cfg, key) && !IsPlatform(sess)
    requires OffLimits(cfg, sess, key, row) && cmd != Select && Meaningful(cmd, side)
    ensures !Admits(sec, db, sess, key, cmd, side, row)
  {
    WriteMeaning(sec, cfg, db, sess, key, cmd, side, row);
    SeesStep(sec, cfg, db, sess, key, row);
  }

  /** The rows of a table that are off limits to every one of the sessions. */
  ghost function Kept(cfg: Config, db: Database, sessions: set<Session>, key: string): Table
    requires key in cfg.entries && key in cfg.columns
  {
    map id | id in Rows(db, key) && (forall s | s in sessions :: OffLimits(cfg, s, key, Rows(db, key)[id])) ::
        Rows(db, key)[id]
  }

  /** Whatever a statement removes passed a USING test, whatever it leaves behind passed a CHECK. */
  lemma ExecIsGated(sec: Security, db: Database, sess: Session, st: Stmt, id: nat)
    requires Ranked(sec)
    ensures var before, after := Rows(db, st.key), Rows(Exec(sec, db, sess, st), st.key);
            && (id in before && (id !in after || after[id] != before[id]) ==>
                  st.key in sec.tables
                  && exists cmd | cmd in {Update, Delete} :: Admits(sec, db, sess, st.key, cmd, Using, before[id]))
            && (id in after && (id !in before || after[id] != before[id]) ==>
                  st.key in sec.tables
                  && exists cmd | cmd in {Insert, Update} :: Admits(sec, db, sess, st.key, cmd, Check, after[id]))
    ensures forall t | t != st.key :: Rows(Exec(sec, db, sess, st), t) == Rows(db, t)
  {
  }

  lemma ExecKeeps(sec: Security, cfg: Config, db: Database, sessions: set<Session>, sess: Session, st: Stmt,
                  key: string)
    requires Enforces(sec, cfg) && key in cfg.entries && EnforcedAt(sec, cfg, key)
    requires sess in sessions && !IsPlatform(sess)
    ensures Kept(cfg, Exec(sec, db, sess, st), sessions, key) == Kept(cfg, db, sessions, key)
  {
    var before, after := Rows(db, key), Rows(Exec(sec, db, sess, st), key);
    forall id | id in before.Keys + after.Keys
      ensures (id in before && OffLimits(cfg, sess, key, before[id]))
                || (id in after && OffLimits(cfg, sess, key, after[id])) ==>
                id in before && id in after && before[id] == after[id]
    {
      ExecIsGated(sec, db, sess, st, id);
      if st.key == key {
        if id in before && OffLimits(cfg, sess, key, before[id]) {
          OffLimitsIsUnwritable(sec, cfg, db, sess, key, Update, Using, before[id]);
          OffLimitsIsUnwritable(sec, cfg, db, sess, key, Delete, Using, before[id]);
        }
        if id in after && OffLimits(cfg, sess, key, after[id]) {
          OffLimitsIsUnwritable(sec, cfg, db, sess, key, Update, Check, after[id]);
          OffLimitsIsUnwritable(sec, cfg, db, sess, key, Insert, Check, after[id]);
        }
      }
    }
  }

  /**
   * Over every run of statements by sessions that do not both declare platform scope and hold its role, the rows that
   * belong to none of their tenants, and the shared rows, are neither created, changed, deleted nor re-stamped.
   */
  lemma {:induction false} RunKeepsForeignRows(sec: Security, cfg: Config, db: Database, sessions: set<Session>,
                                               run: Run, key: string)
    requires Enforces(sec, cfg) && key in cfg.entries && EnforcedAt(sec, cfg, key)
    requires forall s | s in sessions :: s.platformSetting != Some("on") || !s.platformMember
    requires forall i | 0 <= i < |run| :: run[i].0 in sessions
    ensures Kept(cfg, RunAll(sec, db, run), sessions, key) == Kept(cfg, db, sessions, key)
    decreases |run|
  {
    if run != [] {
      ExecKeeps(sec, cfg, db, sessions, run[0].0, run[0].1, key);
      RunKeepsForeignRows(sec, cfg, Exec(sec, db, run[0].0, run[0].1), sessions, run[1..], key);
    }
  }

  // ---- Non-interference

  /** The part of a table that another tenant's rows are removed from. */
  ghost function Native(cfg: Config, db: Database, sess: Session, key: string): Table
    requires key in cfg.entries && key in cfg.columns
  {
    map id | id in Rows(db, key) && !Foreign(cfg, sess, key, Rows(db, key)[id]) :: Rows(db, key)[id]
  }

  ghost predicate SameNative(cfg: Config, a: Database, b: Database, sess: Session) {
    forall key | key in cfg.entries && key in cfg.columns :: Native(cfg, a, sess, key) == Native(cfg, b, sess, key)
  }

  lemma {:induction false} SeesIgnoresForeign(sec: Security, cfg: Config, a: Database, b: Database, sess: Session,
                                              key: string, row: Row)
    requires Enforces(sec, cfg) && key in cfg.entries && !IsPlatform(sess) && SameNative(cfg, a, b, sess)
    requires Sees(sec, a, sess, key, row)
    ensures Sees(sec, b, sess, key, row)
    decreases Rank(sec, key)
  {
    assert EnforcedAt(sec, cfg, key);
    SeesStep(sec, cfg, a, sess, key, row);
    SeesStep(sec, cfg, b, sess, key, row);
    if !Open(cfg, sess, key, row) {
      var t, id :| t in sec.tables && id in Rows(a, t)
        && Borrows(sec, cfg, sess, key, row, t, Rows(a, t)[id]) && Sees(sec, a, sess, t, Rows(a, t)[id]);
      var other := Rows(a, t)[id];
      BorrowsBelow(sec, cfg, sess, key, row, t, other);
      assert EnforcedAt(sec, cfg, t);
      SeesIgnoresForeign(sec, cfg, a, b, sess, t, other);
      if Foreign(cfg, sess, t, other) {
        ForeignIsHidden(sec, cfg, a, sess, t, other);
      }
      assert id in Native(cfg, b, sess, t) && Native(cfg, b, sess, t)[id] == other;
    }
  }

  /** What a tenant can read does not depend on the rows stamped with other tenants, in any table. */
  lemma ViewIgnoresForeign(sec: Security, cfg: Config, a: Database, b: Database, sess: Session, key: string)
    requires Enforces(sec, cfg) && key in cfg.entries && !IsPlatform(sess) && SameNative(cfg, a, b, sess)
    ensures View(sec, a, sess, key) == View(sec, b, sess, key)
  {
    ViewWithin(sec, cfg, a, b, sess, key);
    ViewWithin(sec, cfg, b, a, sess, key);
  }

  lemma ViewWithin(sec: Security, cfg: Config, a: Database, b: Database, sess: Session, key: string)
    requires Enforces(sec, cfg) && key in cfg.entries && !IsPlatform(sess) && SameNative(cfg, a, b, sess)
    ensures forall id | id in View(sec, a, sess, key) ::
              id in View(sec, b, sess, key) && View(sec, b, sess, key)[id] == View(sec, a, sess, key)[id]
  {
    forall id | id in View(sec, a, sess, key)
      ensures id in View(sec, b, sess, key) && View(sec, b, sess, key)[id] == View(sec, a, sess, key)[id]
    {
      ViewStep(sec, cfg, a, b, sess, key, id);
    }
  }

  lemma ViewStep(sec: Security, cfg: Config, a: Database, b: Database, sess: Session, key: string, id: nat)
    requires Enforces(sec, cfg) && key in cfg.entries && !IsPlatform(sess) && SameNative(cfg, a, b, sess)
    requires id in View(sec, a, sess, key)
    ensures id in View(sec, b, sess, key) && Rows(a, key)[id] == Rows(b, key)[id]
  {
    assert EnforcedAt(sec, cfg, key);
    var row := Rows(a, key)[id];
    SeesIgnoresForeign(sec, cfg, a, b, sess, key, row);
    if Foreign(cfg, sess, key, row) {
      ForeignIsHidden(sec, cfg, a, sess, key, row);
    }
    assert id in Native(cfg, a, sess, key);
    assert id in Native(cfg, b, sess, key);
  }

  /** The two sessions act for different tenants, whichever way a table stores the tenant. */
  predicate Unrelated(a: Session, b: Session) {
    && TenantId(a) != TenantId(b)
    && (TenantUuid(a) == Null || TenantUuid(a) != TenantUuid(b))
  }

  /** A row that is not foreign to the reader stays, and a row that is not foreign was there before. */
  lemma ExecIsInvisibleAt(sec: Security, cfg: Config, db: Database, reader: Session, writer: Session, st: Stmt, id: nat)
    requires Enforces(sec, cfg) && !IsPlatform(writer) && Unrelated(reader, writer)
    requires st.key in cfg.entries && EnforcedAt(sec, cfg, st.key)
              && cfg.entries[st.key].kind in {Tenant, TenantOrShared}
    ensures var before, after := Rows(db, st.key), Rows(Exec(sec, db, writer, st), st.key);
            && (id in before && !Foreign(cfg, reader, st.key, before[id]) ==> id in after && after[id] == before[id])
            && (id in after && !Foreign(cfg, reader, st.key, after[id]) ==> id in before && after[id] == before[id])
  {
    NativeRowsStay(sec, cfg, db, reader, writer, st, id);
    NativeRowsWereThere(sec, cfg, db, reader, writer, st, id);
  }

  lemma NativeRowsStay(sec: Security, cfg: Config, db: Database, reader: Session, writer: Session, st: Stmt, id: nat)
    requires Enforces(sec, cfg) && !IsPlatform(writer) && Unrelated(reader, writer)
    requires st.key in cfg.entries && EnforcedAt(sec, cfg, st.key)
              && cfg.entries[st.key].kind in {Tenant, TenantOrShared}
    ensures var before, after := Rows(db, st.key), Rows(Exec(sec, db, writer, st), st.key);
            id in before && !Foreign(cfg, reader, st.key, before[id]) ==> id in after && after[id] == before[id]
  {
    var before := Rows(db, st.key);
    ExecIsGated(sec, db, writer, st, id);
    if id in before && !Foreign(cfg, reader, st.key, before[id]) {
      WriterNeedsOwn(sec, cfg, db, reader, writer, st.key, before[id]);
    }
  }

  lemma NativeRowsWereThere(sec: Security, cfg: Config, db: Database, reader: Session, writer: Session, st: Stmt,
                            id: nat)
    requires Enforces(sec, cfg) && !IsPlatform(writer) && Unrelated(reader, writer)
    requires st.key in cfg.entries && EnforcedAt(sec, cfg, st.key)
              && cfg.entries[st.key].kind in {Tenant, TenantOrShared}
    ensures var before, after := Rows(db, st.key), Rows(Exec(sec, db, writer, st), st.key);
            id in after && !Foreign(cfg, reader, st.key, after[id]) ==> id in before && after[id] == before[id]
  {
    var after := Rows(Exec(sec, db, writer, st), st.key);
    ExecIsGated(sec, db, writer, st, id);
    if id in after && !Foreign(cfg, reader, st.key, after[id]) {
      WriterNeedsOwn(sec, cfg, db, reader, writer, st.key, after[id]);
    }
  }

  lemma ExecIsInvisible(sec: Security, cfg: Config, db: Database, reader: Session, writer: Session, st: Stmt)
    requires Enforces(sec, cfg) && !IsPlatform(writer) && Unrelated(reader, writer)
    requires st.key in cfg.entries && cfg.entries[st.key].kind in {Tenant, TenantOrShared}
    ensures SameNative(cfg, db, Exec(sec, db, writer, st), reader)
  {
    assert EnforcedAt(sec, cfg, st.key);
    var next := Exec(sec, db, writer, st);
    ExecIsGated(sec, db, writer, st, 0);
    NativeAtKey(sec, cfg, db, reader, writer, st, next);
    forall t | t in cfg.entries && t in cfg.columns && t != st.key
      ensures Native(cfg, db, reader, t) == Native(cfg, next, reader, t)
    {
      NativeIsOfRows(cfg, db, next, reader, t);
    }
  }

  lemma NativeIsOfRows(cfg: Config, a: Database, b: Database, reader: Session, key: string)
    requires key in cfg.entries && key in cfg.columns && Rows(a, key) == Rows(b, key)
    ensures Native(cfg, a, reader, key) == Native(cfg, b, reader, key)
  {
  }

  lemma NativeAtKey(sec: Security, cfg: Config, db: Database, reader: Session, writer: Session, st: Stmt,
                    next: Database)
    requires Enforces(sec, cfg) && !IsPlatform(writer) && Unrelated(reader, writer)
    requires st.key in cfg.entries && EnforcedAt(sec, cfg, st.key)
    requires cfg.entries[st.key].kind in {Tenant, TenantOrShared} && next == Exec(sec, db, writer, st)
    ensures Native(cfg, db, reader, st.key) == Native(cfg, next, reader, st.key)
  {
    forall id: nat | id in Rows(db, st.key).Keys + Rows(next, st.key).Keys
      ensures NativeStays(cfg, reader, st.key, Rows(db, st.key), Rows(next, st.key), id)
    {
      ExecIsInvisibleAt(sec, cfg, db, reader, writer, st, id);
    }
    SameNativeRows(cfg, db, next, reader, st.key);
  }

  /** A row that is not foreign before or after is the same before and after. */
  ghost predicate NativeStays(cfg: Config, reader: Session, key: string, before: Table, after: Table, id: nat)
    requires key in cfg.entries && key in cfg.columns
  {
    && (id in before && !Foreign(cfg, reader, key, before[id]) ==> id in after && after[id] == before[id])
    && (id in after && !Foreign(cfg, reader, key, after[id]) ==> id in before && after[id] == before[id])
  }

  lemma SameNativeRows(cfg: Config, a: Database, b: Database, reader: Session, key: string)
    requires key in cfg.entries && key in cfg.columns
    requires forall id | id in Rows(a, key).Keys + Rows(b, key).Keys ::
               NativeStays(cfg, reader, key, Rows(a, key), Rows(b, key), id)
    ensures Native(cfg, a, reader, key) == Native(cfg, b, reader, key)
  {
    var before, after := Native(cfg, a, reader, key), Native(cfg, b, reader, key);
    forall id | id in before ensures id in after && after[id] == before[id] {
      assert NativeStays(cfg, reader, key, Rows(a, key), Rows(b, key), id);
    }
    forall id | id in after ensures id in before {
      assert NativeStays(cfg, reader, key, Rows(a, key), Rows(b, key), id);
    }
  }

  /** A row that is not foreign to the reader is out of an unrelated writer's reach. */
  lemma WriterNeedsOwn(sec: Security, cfg: Config, db: Database, reader: Session, writer: Session, key: string,
                       row: Row)
    requires Enforces(sec, cfg) && !IsPlatform(writer) && Unrelated(reader, writer)
    requires key in cfg.entries && EnforcedAt(sec, cfg, key) && cfg.entries[key].kind in {Tenant, TenantOrShared}
    requires !Foreign(cfg, reader, key, row)
    ensures forall cmd, side | cmd != Select && Meaningful(cmd, side) :: !Admits(sec, db, writer, key, cmd, side, row)
  {
    forall cmd, side | cmd != Select && Meaningful(cmd, side)
      ensures !Admits(sec, db, writer, key, cmd, side, row)
    {
      WriteMeaning(sec, cfg, db, writer, key, cmd, side, row);
      SeesStep(sec, cfg, db, writer, key, row);
    }
  }

  /**
   * Whatever unrelated tenants do to tenant and tenant_or_shared tables, in any number of
   * statements, no SELECT of the reader on any table changes.
   */
  lemma {:induction false} RunIsInvisible(sec: Security, cfg: Config, db: Database, reader: Session, run: Run,
                                          key: string)
    requires Enforces(sec, cfg) && key in cfg.entries && !IsPlatform(reader)
    requires forall i | 0 <= i < |run| ::
               && !IsPlatform(run[i].0) && Unrelated(reader, run[i].0)
               && run[i].1.key in cfg.entries && cfg.entries[run[i].1.key].kind in {Tenant, TenantOrShared}
    ensures View(sec, RunAll(sec, db, run), reader, key) == View(sec, db, reader, key)
    decreases |run|
  {
    if run != [] {
      var next := Exec(sec, db, run[0].0, run[0].1);
      ExecIsInvisible(sec, cfg, db, reader, run[0].0, run[0].1);
      ViewIgnoresForeign(sec, cfg, db, next, reader, key);
      RunIsInvisible(sec, cfg, next, reader, run[1..], key);
    }
  }

  /** With no tenant in scope nothing stamped can be read, and the lookups all come back empty. */
  lemma UnscopedSeesNoStamp(sec: Security, cfg: Config, db: Database, sess: Session, key: string, row: Row)
    requires Enforces(sec, cfg) && key in cfg.entries && EnforcedAt(sec, cfg, key)
    requires !IsPlatform(sess) && TenantId(sess) == Null
    requires Sees(sec, db, sess, key, row)
    ensures match cfg.entries[key].kind
            case Tenant => false
            case TenantOrShared => NullStamp(cfg.columns[key], row)
            case TenantOrAccount => false
            case TenantOrParent => NullStamp(cfg.columns[key], row)
            case Account => false
            case AccountOrShared => Get(row, AccountColumn(cfg.entries[key])) == Null
            case TenantPair => false
            case _ => true
  {
    SeesStep(sec, cfg, db, sess, key, row);
  }

  /** A tenant setting that is not shaped like a uuid matches no stamped row of a uuid column, of any stamped kind. */
  lemma MalformedSeesNoUuidStamp(sec: Security, cfg: Config, db: Database, sess: Session, key: string, row: Row)
    requires Enforces(sec, cfg) && key in cfg.entries && EnforcedAt(sec, cfg, key) && !IsPlatform(sess)
    requires HasStamp(cfg.entries[key].kind) && Stamped(cfg.columns[key], row)
    requires cfg.columns[key][StampColumn(cfg.columns[key]).value].typ == "uuid"
    requires TenantId(sess).Text? && !IsUuidText(TenantId(sess).s)
    ensures !Sees(sec, db, sess, key, row)
    ensures forall cmd, side | cmd != Select && Meaningful(cmd, side) :: !Admits(sec, db, sess, key, cmd, side, row)
  {
    ForeignIsHidden(sec, cfg, db, sess, key, row);
    forall cmd, side | cmd != Select && Meaningful(cmd, side) ensures !Admits(sec, db, sess, key, cmd, side, row) {
      OffLimitsIsUnwritable(sec, cfg, db, sess, key, cmd, side, row);
    }
  }

  predicate SameButForCase(a: string, b: string) {
    |a| == |b| && forall i | 0 <= i < |a| :: LowerHex(a[i]) == LowerHex(b[i])
  }

  /** Two settings name the same uuid exactly when both are shaped like one and differ at most in letter case. */
  lemma SameUuidIff(a: Session, b: Session)
    ensures TenantUuid(a) != Null && TenantUuid(a) == TenantUuid(b) <==>
              && TenantId(a).Text? && TenantId(b).Text? && IsUuidText(TenantId(a).s) && IsUuidText(TenantId(b).s)
              && SameButForCase(TenantId(a).s, TenantId(b).s)
  {
    if TenantUuid(a) != Null && TenantUuid(a) == TenantUuid(b) {
      var x, y := TenantId(a).s, TenantId(b).s;
      assert |TenantUuid(a).hex| == |x| && |TenantUuid(b).hex| == |y|;
      forall i | 0 <= i < |x| ensures LowerHex(x[i]) == LowerHex(y[i]) {
        assert TenantUuid(a).hex[i] == TenantUuid(b).hex[i];
      }
    }
  }

  /** Two spellings of one uuid own the same rows of a uuid column and never the same row of a text column. */
  lemma SpellingsOfOneUuid(a: Session, b: Session, columns: Columns, row: Row)
    requires TenantUuid(a) == TenantUuid(b) && TenantId(a) != TenantId(b) && StampColumn(columns).Some?
    ensures columns[StampColumn(columns).value].typ == "uuid" ==>
              (OwnStamp(a, columns, row) <==> OwnStamp(b, columns, row))
    ensures columns[StampColumn(columns).value].typ != "uuid" ==>
              !(OwnStamp(a, columns, row) && OwnStamp(b, columns, row))
  {
  }
}
