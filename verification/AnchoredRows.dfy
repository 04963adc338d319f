/**
 * Rows that belong to a tenant through their parents: whatever the other tenants run, they stay.
 */
module AnchoredRows {
  import opened Common
  import opened SqlModel
  import opened PolicyCompiler
  import opened RowSecurity
  import opened Visibility
  import opened Isolation

  /** The walk up the parent keys ends at a row that is stamped with a tenant other than the session's. */
  ghost predicate Beyond(sec: Security, cfg: Config, db: Database, sess: Session, key: string, row: Row)
    requires Enforces(sec, cfg) && key in cfg.entries
  {
    var anchor := Anchor(sec, cfg, db, key, row);
    anchor.Some? && Foreign(cfg, sess, anchor.value.key, anchor.value.row)
  }

  lemma BeyondIsHidden(sec: Security, cfg: Config, db: Database, sess: Session, key: string, row: Row)
    requires Enforces(sec, cfg) && UniqueParentIds(cfg, db) && key in cfg.entries && !IsPlatform(sess)
    requires Beyond(sec, cfg, db, sess, key, row)
    ensures !Sees(sec, db, sess, key, row)
  {
    var anchor := Anchor(sec, cfg, db, key, row).value;
    assert EnforcedAt(sec, cfg, anchor.key);
    ForeignIsHidden(sec, cfg, db, sess, anchor.key, anchor.row);
    VisibleIffAnchorIs(sec, cfg, db, sess, key, row);
  }

  lemma BeyondIsUnwritable(sec: Security, cfg: Config, db: Database, sess: Session, key: string, cmd: Command,
                           side: Side, row: Row)
    requires Enforces(sec, cfg) && UniqueParentIds(cfg, db) && key in cfg.entries && !IsPlatform(sess)
    requires Beyond(sec, cfg, db, sess, key, row) && cmd != Select && Meaningful(cmd, side)
    ensures !Admits(sec, db, sess, key, cmd, side, row)
  {
    assert EnforcedAt(sec, cfg, key);
    BeyondIsHidden(sec, cfg, db, sess, key, row);
    WriteMeaning(sec, cfg, db, sess, key, cmd, side, row);
  }

  /** A statement neither changes nor makes such a row in its table. */
  lemma StatementLeaves(sec: Security, cfg: Config, db: Database, sess: Session, st: Stmt, id: nat)
    requires Enforces(sec, cfg) && UniqueParentIds(cfg, db) && st.key in cfg.entries && !IsPlatform(sess)
    ensures var before, after := Rows(db, st.key), Rows(Exec(sec, db, sess, st), st.key);
            && (id in before && Beyond(sec, cfg, db, sess, st.key, before[id]) ==>
                  id in after && after[id] == before[id])
            && (id in after && Beyond(sec, cfg, db, sess, st.key, after[id]) ==>
                  id in before && after[id] == before[id])
  {
    var before, after := Rows(db, st.key), Rows(Exec(sec, db, sess, st), st.key);
    ExecIsGated(sec, db, sess, st, id);
    if id in before && Beyond(sec, cfg, db, sess, st.key, before[id]) {
      BeyondIsUnwritable(sec, cfg, db, sess, st.key, Update, Using, before[id]);
      BeyondIsUnwritable(sec, cfg, db, sess, st.key, Delete, Using, before[id]);
    }
    if id in after && Beyond(sec, cfg, db, sess, st.key, after[id]) {
      BeyondIsUnwritable(sec, cfg, db, sess, st.key, Insert, Check, after[id]);
      BeyondIsUnwritable(sec, cfg, db, sess, st.key, Update, Check, after[id]);
    }
  }

  /** With unique ids the parent row is the one the key points at. */
  lemma ParentIs(db: Database, e: Entry, row: Row, id: nat)
    requires UniqueIds(Rows(db, e.parent)) && id in Rows(db, e.parent)
    requires Eq3(Get(Rows(db, e.parent)[id], "id"), Get(row, e.fk)) == True
    ensures ParentRow(db, e, row) == Some(Rows(db, e.parent)[id])
  {
    var rows := Rows(db, e.parent);
    assert ParentRow(db, e, row).Some?;
    var other :| other in rows && rows[other] == ParentRow(db, e, row).value;
    assert Get(rows[other], "id") == Get(rows[id], "id") != Null;
  }

  lemma ParentId(db: Database, e: Entry, row: Row) returns (id: nat)
    requires ParentRow(db, e, row).Some?
    ensures id in Rows(db, e.parent) && Rows(db, e.parent)[id] == ParentRow(db, e, row).value
    ensures Eq3(Get(Rows(db, e.parent)[id], "id"), Get(row, e.fk)) == True
  {
    id :| id in Rows(db, e.parent) && Rows(db, e.parent)[id] == ParentRow(db, e, row).value;
  }

  /** The parent of a row beyond the session is still its parent after the statement. */
  lemma ParentStays(sec: Security, cfg: Config, db: Database, next: Database, sess: Session, st: Stmt, e: Entry,
                    row: Row)
    requires Enforces(sec, cfg) && UniqueParentIds(cfg, db) && UniqueIds(Rows(next, e.parent)) && !IsPlatform(sess)
    requires next == Exec(sec, db, sess, st) && e.parent in cfg.entries && ParentRow(db, e, row).Some?
    requires Beyond(sec, cfg, db, sess, e.parent, ParentRow(db, e, row).value)
    ensures ParentRow(next, e, row) == ParentRow(db, e, row)
  {
    var id := ParentId(db, e, row);
    ExecIsGated(sec, db, sess, st, id);
    if e.parent == st.key {
      StatementLeaves(sec, cfg, db, sess, st, id);
    }
    ParentIs(next, e, row, id);
  }

  /** The other way round: a parent found after the statement was the parent before. */
  lemma ParentWas(sec: Security, cfg: Config, db: Database, next: Database, sess: Session, st: Stmt, e: Entry,
                  row: Row)
    requires Enforces(sec, cfg) && UniqueParentIds(cfg, db) && UniqueIds(Rows(db, e.parent)) && !IsPlatform(sess)
    requires next == Exec(sec, db, sess, st) && e.parent in cfg.entries && ParentRow(next, e, row).Some?
    requires Beyond(sec, cfg, db, sess, e.parent, ParentRow(next, e, row).value)
    ensures ParentRow(db, e, row) == ParentRow(next, e, row)
  {
    var id := ParentId(next, e, row);
    ExecIsGated(sec, db, sess, st, id);
    if e.parent == st.key {
      StatementLeaves(sec, cfg, db, sess, st, id);
    }
    ParentIs(db, e, row, id);
  }

  /** A statement of the session does not move an anchor that is beyond it, before or after. */
  lemma {:induction false} AnchorStays(sec: Security, cfg: Config, db: Database, next: Database, sess: Session,
                                       st: Stmt, key: string, row: Row)
    requires Enforces(sec, cfg) && key in cfg.entries && !IsPlatform(sess) && next == Exec(sec, db, sess, st)
    requires UniqueParentIds(cfg, db) && UniqueParentIds(cfg, next)
    requires Beyond(sec, cfg, db, sess, key, row) || Beyond(sec, cfg, next, sess, key, row)
    ensures Anchor(sec, cfg, next, key, row) == Anchor(sec, cfg, db, key, row)
    decreases Rank(sec, key)
  {
    assert EnforcedAt(sec, cfg, key);
    if PassesOn(cfg, key, row) {
      var e := cfg.entries[key];
      ParentIsBelow(sec, cfg, key);
      assert UniqueIds(Rows(db, e.parent)) && UniqueIds(Rows(next, e.parent));
      if Beyond(sec, cfg, db, sess, key, row) {
        AnchorStays(sec, cfg, db, next, sess, st, e.parent, ParentRow(db, e, row).value);
        ParentStays(sec, cfg, db, next, sess, st, e, row);
      } else {
        AnchorStays(sec, cfg, db, next, sess, st, e.parent, ParentRow(next, e, row).value);
        ParentWas(sec, cfg, db, next, sess, st, e, row);
      }
    }
  }

  /** The rows of a table that are beyond every one of the sessions. */
  ghost function KeptBeyond(sec: Security, cfg: Config, db: Database, sessions: set<Session>, key: string): Table
    requires Enforces(sec, cfg) && key in cfg.entries
  {
    map id | id in Rows(db, key) && BeyondAll(sec, cfg, db, sessions, key, Rows(db, key)[id]) :: Rows(db, key)[id]
  }

  ghost predicate BeyondAll(sec: Security, cfg: Config, db: Database, sessions: set<Session>, key: string, row: Row)
    requires Enforces(sec, cfg) && key in cfg.entries
  {
    forall s | s in sessions :: Beyond(sec, cfg, db, s, key, row)
  }

  lemma StaysBeyond(sec: Security, cfg: Config, db: Database, next: Database, sessions: set<Session>, sess: Session,
                    st: Stmt, key: string, row: Row)
    requires Enforces(sec, cfg) && key in cfg.entries && sess in sessions && !IsPlatform(sess)
    requires next == Exec(sec, db, sess, st) && UniqueParentIds(cfg, db) && UniqueParentIds(cfg, next)
    ensures BeyondAll(sec, cfg, db, sessions, key, row) <==> BeyondAll(sec, cfg, next, sessions, key, row)
  {
    if BeyondAll(sec, cfg, db, sessions, key, row) || BeyondAll(sec, cfg, next, sessions, key, row) {
      AnchorStays(sec, cfg, db, next, sess, st, key, row);
    }
  }

  /** A row that one of the two tables holds and that is beyond every session is in both. */
  ghost predicate KeptAt(sec: Security, cfg: Config, db: Database, sessions: set<Session>, key: string,
                         before: Table, after: Table, id: nat)
    requires Enforces(sec, cfg) && key in cfg.entries
  {
    && (id in before && BeyondAll(sec, cfg, db, sessions, key, before[id]) ==> id in after && after[id] == before[id])
    && (id in after && BeyondAll(sec, cfg, db, sessions, key, after[id]) ==> id in before && after[id] == before[id])
  }

  lemma ExecKeepsAt(sec: Security, cfg: Config, db: Database, sessions: set<Session>, sess: Session, st: Stmt,
                    key: string, id: nat)
    requires Enforces(sec, cfg) && key in cfg.entries && sess in sessions && !IsPlatform(sess)
    requires UniqueParentIds(cfg, db)
    ensures KeptAt(sec, cfg, db, sessions, key, Rows(db, key), Rows(Exec(sec, db, sess, st), key), id)
  {
    ExecIsGated(sec, db, sess, st, id);
    if key == st.key {
      StatementLeaves(sec, cfg, db, sess, st, id);
    }
  }

  lemma ExecKeepsBeyond(sec: Security, cfg: Config, db: Database, sessions: set<Session>, sess: Session, st: Stmt,
                        key: string, next: Database)
    requires Enforces(sec, cfg) && key in cfg.entries && sess in sessions && !IsPlatform(sess)
    requires next == Exec(sec, db, sess, st) && UniqueParentIds(cfg, db) && UniqueParentIds(cfg, next)
    ensures KeptBeyond(sec, cfg, next, sessions, key) == KeptBeyond(sec, cfg, db, sessions, key)
  {
    forall row ensures BeyondAll(sec, cfg, db, sessions, key, row) <==> BeyondAll(sec, cfg, next, sessions, key, row) {
      StaysBeyond(sec, cfg, db, next, sessions, sess, st, key, row);
    }
    forall id ensures KeptAt(sec, cfg, db, sessions, key, Rows(db, key), Rows(next, key), id) {
      ExecKeepsAt(sec, cfg, db, sessions, sess, st, key, id);
    }
    SameKept(sec, cfg, db, next, sessions, key);
  }

  lemma SameKept(sec: Security, cfg: Config, db: Database, next: Database, sessions: set<Session>, key: string)
    requires Enforces(sec, cfg) && key in cfg.entries
    requires forall row ::
               BeyondAll(sec, cfg, db, sessions, key, row) <==> BeyondAll(sec, cfg, next, sessions, key, row)
    requires forall id :: KeptAt(sec, cfg, db, sessions, key, Rows(db, key), Rows(next, key), id)
    ensures KeptBeyond(sec, cfg, next, sessions, key) == KeptBeyond(sec, cfg, db, sessions, key)
  {
    var kept, left := KeptBeyond(sec, cfg, db, sessions, key), KeptBeyond(sec, cfg, next, sessions, key);
    forall id | id in kept ensures id in left && left[id] == kept[id] {
      assert KeptAt(sec, cfg, db, sessions, key, Rows(db, key), Rows(next, key), id);
    }
    forall id | id in left ensures id in kept {
      assert KeptAt(sec, cfg, db, sessions, key, Rows(db, key), Rows(next, key), id);
    }
  }

  /** "id" stays a key of the tables that are named as a parent, as their primary keys see to. */
  ghost predicate UniqueThroughout(sec: Security, cfg: Config, db: Database, run: Run)
    requires Ranked(sec)
    decreases |run|
  {
    && UniqueParentIds(cfg, db)
    && (run != [] ==> UniqueThroughout(sec, cfg, Exec(sec, db, run[0].0, run[0].1), run[1..]))
  }

  /**
   * Over every run of statements by non-platform sessions, the rows whose walk up the parent keys ends at a row of a
   * tenant that none of them acts for are neither created, changed, moved nor deleted, whatever table they are in.
   */
  lemma {:induction false} RunKeepsAnchoredRows(sec: Security, cfg: Config, db: Database, sessions: set<Session>,
                                                run: Run, key: string)
    requires Enforces(sec, cfg) && key in cfg.entries && UniqueThroughout(sec, cfg, db, run)
    requires forall s | s in sessions :: s.platformSetting != Some("on") || !s.platformMember
    requires forall i | 0 <= i < |run| :: run[i].0 in sessions
    ensures KeptBeyond(sec, cfg, RunAll(sec, db, run), sessions, key) == KeptBeyond(sec, cfg, db, sessions, key)
    decreases |run|
  {
    if run != [] {
      var next := Exec(sec, db, run[0].0, run[0].1);
      assert UniqueParentIds(cfg, next);
      ExecKeepsBeyond(sec, cfg, db, sessions, run[0].0, run[0].1, key, next);
      RunKeepsAnchoredRows(sec, cfg, next, sessions, run[1..], key);
    }
  }
}
