/** What statements do to a tenant table: a session changes the rows of its own tenant, all of them and no others. */
module OwnWrites {
  import opened Common
  import opened SqlModel
  import opened PolicyCompiler
  import opened RowSecurity
  import opened Visibility
  import opened Isolation
  import opened TenantRules

  /** A `tenant` table with its stamp column, and a session off platform scope. */
  ghost predicate Setting(sec: Security, cfg: Config, sess: Session, key: string, c: string) {
    && Enforces(sec, cfg) && key in cfg.entries && EnforcedAt(sec, cfg, key) && cfg.entries[key].kind == Tenant
    && IsStamp(cfg.columns[key], c) && (sess.platformSetting != Some("on") || !sess.platformMember)
  }

  /** The values of the stamp column are of its type. */
  predicate Typed(columns: Columns, c: string, rows: Table)
    requires c in columns
  {
    forall id | id in rows :: Get(rows[id], c) == Null
                              || (if columns[c].typ == "uuid" then Get(rows[id], c).Uuid? else Get(rows[id], c).Text?)
  }

  /** The rows of the session's tenant. */
  function Own(sess: Session, c: string, rows: Table): Table {
    map id | id in rows && Names(sess, Get(rows[id], c)) :: rows[id]
  }

  lemma OwnIsWritable(sec: Security, cfg: Config, db: Database, sess: Session, key: string, c: string, rows: Table,
                      cmd: Command, side: Side)
    requires Setting(sec, cfg, sess, key, c) && Typed(cfg.columns[key], c, rows)
    requires cmd != Select && Meaningful(cmd, side)
    ensures forall id | id in rows :: Admits(sec, db, sess, key, cmd, side, rows[id]) <==> id in Own(sess, c, rows)
  {
    forall id | id in rows
      ensures Admits(sec, db, sess, key, cmd, side, rows[id]) <==> Names(sess, Get(rows[id], c))
    {
      if Get(rows[id], c) == Null {
        UnstampedRowIff(sec, cfg, db, sess, key, rows[id], c, cmd, side);
      } else {
        StampedRowWrittenIff(sec, cfg, db, sess, key, rows[id], c, cmd, side);
      }
    }
  }

  /** DELETE removes the rows of the session's tenant among those it names. */
  lemma DeleteTakesOwn(sec: Security, cfg: Config, db: Database, sess: Session, key: string, c: string, ids: set<nat>)
    requires Setting(sec, cfg, sess, key, c) && Typed(cfg.columns[key], c, Rows(db, key))
    ensures Rows(Exec(sec, db, sess, DeleteRows(key, ids)), key) ==
              Rows(db, key) - (Own(sess, c, Rows(db, key)).Keys * ids)
  {
    OwnIsWritable(sec, cfg, db, sess, key, c, Rows(db, key), Delete, Using);
    assert Reached(sec, db, sess, key, Delete, ids) == Own(sess, c, Rows(db, key)).Keys * ids;
  }

  /** The given rows under these ids. */
  function Among(rows: Table, ids: set<nat>): Table {
    map id | id in ids && id in rows :: rows[id]
  }

  lemma UpdateHits(sec: Security, cfg: Config, db: Database, sess: Session, key: string, c: string, rows: Table)
    requires Setting(sec, cfg, sess, key, c) && Typed(cfg.columns[key], c, Rows(db, key))
    ensures Reached(sec, db, sess, key, Update, rows.Keys) == Own(sess, c, Rows(db, key)).Keys * rows.Keys
  {
    OwnIsWritable(sec, cfg, db, sess, key, c, Rows(db, key), Update, Using);
  }

  lemma UpdatePasses(sec: Security, cfg: Config, db: Database, sess: Session, key: string, c: string, rows: Table,
                     hit: set<nat>)
    requires Setting(sec, cfg, sess, key, c) && Typed(cfg.columns[key], c, rows) && hit <= rows.Keys
    ensures Checked(sec, db, sess, key, Update, rows, hit) <==> hit <= Own(sess, c, rows).Keys
  {
    OwnIsWritable(sec, cfg, db, sess, key, c, rows, Update, Check);
  }

  lemma UpdateDoes(sec: Security, db: Database, sess: Session, key: string, rows: Table, hit: set<nat>)
    requires Ranked(sec) && key in sec.tables && hit == Reached(sec, db, sess, key, Update, rows.Keys)
    ensures Rows(Exec(sec, db, sess, UpdateRows(key, rows)), key) ==
              if Checked(sec, db, sess, key, Update, rows, hit) then Rows(db, key) + Among(rows, hit) else Rows(db, key)
  {
  }

  /** UPDATE replaces the rows of the session's tenant among those it names, unless a new row would leave the tenant:
    * then it fails. */
  lemma UpdateReplacesOwn(sec: Security, cfg: Config, db: Database, sess: Session, key: string, c: string, rows: Table)
    requires Setting(sec, cfg, sess, key, c)
    requires Typed(cfg.columns[key], c, Rows(db, key)) && Typed(cfg.columns[key], c, rows)
    ensures var hit := Own(sess, c, Rows(db, key)).Keys * rows.Keys;
            Rows(Exec(sec, db, sess, UpdateRows(key, rows)), key) ==
              if hit <= Own(sess, c, rows).Keys then Rows(db, key) + Among(rows, hit) else Rows(db, key)
  {
    var hit := Own(sess, c, Rows(db, key)).Keys * rows.Keys;
    UpdateHits(sec, cfg, db, sess, key, c, rows);
    UpdatePasses(sec, cfg, db, sess, key, c, rows, hit);
    UpdateDoes(sec, db, sess, key, rows, hit);
  }

  lemma InsertPasses(sec: Security, cfg: Config, db: Database, sess: Session, key: string, c: string, rows: Table)
    requires Setting(sec, cfg, sess, key, c) && Typed(cfg.columns[key], c, rows)
    ensures Checked(sec, db, sess, key, Insert, rows, rows.Keys) <==> Own(sess, c, rows) == rows
  {
    OwnIsWritable(sec, cfg, db, sess, key, c, rows, Insert, Check);
    assert Own(sess, c, rows) == rows <==> forall id | id in rows :: id in Own(sess, c, rows);
  }

  lemma InsertDoes(sec: Security, db: Database, sess: Session, key: string, rows: Table, passes: bool)
    requires Ranked(sec) && key in sec.tables && passes == Checked(sec, db, sess, key, Insert, rows, rows.Keys)
    ensures Rows(Exec(sec, db, sess, InsertRows(key, rows)), key) ==
              if rows.Keys !! Rows(db, key).Keys && passes then Rows(db, key) + rows else Rows(db, key)
  {
  }

  /** INSERT adds the rows, if they are new and all of the session's tenant, and fails otherwise. */
  lemma InsertAddsOwn(sec: Security, cfg: Config, db: Database, sess: Session, key: string, c: string, rows: Table)
    requires Setting(sec, cfg, sess, key, c) && Typed(cfg.columns[key], c, rows)
    ensures Rows(Exec(sec, db, sess, InsertRows(key, rows)), key) ==
              if rows.Keys !! Rows(db, key).Keys && Own(sess, c, rows) == rows then Rows(db, key) + rows
              else Rows(db, key)
  {
    InsertPasses(sec, cfg, db, sess, key, c, rows);
    InsertDoes(sec, db, sess, key, rows, Own(sess, c, rows) == rows);
  }
}
