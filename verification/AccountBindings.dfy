/** What account rows a session sees is decided by the binding rows, and by nothing else. */
module AccountBindings {
  import opened Common
  import opened SqlModel
  import opened PolicyCompiler
  import opened RowSecurity
  import opened Visibility
  import opened Isolation

  /** The binding table is left to the default kind, with a text tenant column. */
  ghost predicate PlainBindings(cfg: Config) {
    && BINDING in cfg.entries && BINDING in cfg.columns && cfg.entries[BINDING].kind == Tenant
    && StampColumn(cfg.columns[BINDING]) == Some("tenant_id")
    && "tenant_id" in cfg.columns[BINDING] && cfg.columns[BINDING]["tenant_id"].typ != "uuid"
  }

  /** A stored binding ties the account to the session's tenant, in one of the visible states. */
  ghost predicate Bound(sec: Security, db: Database, sess: Session, account: Value) {
    && account != Null && sess.tenantSetting.Some? && sess.tenantSetting.value != ""
    && exists id :: id in Rows(db, "commercial.CommercialAccountTenantBinding")
                    && Ties(sec, sess, account, Rows(db, "commercial.CommercialAccountTenantBinding")[id])
  }

  ghost predicate Ties(sec: Security, sess: Session, account: Value, binding: Row)
    requires sess.tenantSetting.Some?
  {
    && Get(binding, "commercial_account_id") == account
    && Get(binding, "tenant_id") == Text(sess.tenantSetting.value)
    && exists state :: state in sec.bindingStates && Get(binding, "status") == Text(state)
  }

  lemma TiesIff(sec: Security, sess: Session, account: Value, binding: Row)
    ensures BindsAccount(sec, sess, binding, account) <==>
              && account != Null && sess.tenantSetting.Some? && sess.tenantSetting.value != ""
              && Ties(sec, sess, account, binding)
  {
    if BindsAccount(sec, sess, binding, account) {
      assert Get(binding, "status").s in sec.bindingStates;
    }
  }

  /** A binding of the session's own tenant is visible to it, so the lookup inside the policy hides none that counts. */
  lemma OwnBindingIsSeen(sec: Security, cfg: Config, db: Database, sess: Session, binding: Row, account: Value)
    requires Enforces(sec, cfg) && PlainBindings(cfg) && BindsAccount(sec, sess, binding, account)
    ensures Sees(sec, db, sess, BINDING, binding)
  {
    assert EnforcedAt(sec, cfg, BINDING);
    SeesStep(sec, cfg, db, sess, BINDING, binding);
    assert OwnStamp(sess, cfg.columns[BINDING], binding);
  }

  predicate IsAccountKind(e: Entry) {
    e.kind in {Account, AccountOrShared, TenantOrAccount}
  }

  /** The column with the account of a row. */
  predicate IsAccountColumn(e: Entry, c: string) {
    c == if e.column != "" then e.column else "commercial_account_id"
  }

  lemma BorrowsIffBound(sec: Security, cfg: Config, db: Database, sess: Session, key: string, row: Row, c: string)
    requires Enforces(sec, cfg) && PlainBindings(cfg) && key in cfg.entries && EnforcedAt(sec, cfg, key)
    requires IsAccountKind(cfg.entries[key]) && IsAccountColumn(cfg.entries[key], c)
    ensures BorrowsFromSeen(sec, cfg, db, sess, key, row) <==>
              MayBorrow(cfg, key, row) && Bound(sec, db, sess, Get(row, c))
  {
    BorrowsFromBinding(sec, cfg, db, sess, key, row);
    BoundIsSeen(sec, cfg, db, sess, Get(row, c));
    if id :| SeenBorrowed(sec, cfg, db, sess, key, row, id) {
      BorrowsBinding(sec, cfg, sess, key, row, c, Rows(db, BINDING)[id]);
      assert SeenBinding(sec, db, sess, Get(row, c), id);
    }
    if id :| SeenBinding(sec, db, sess, Get(row, c), id) {
      BorrowsBinding(sec, cfg, sess, key, row, c, Rows(db, BINDING)[id]);
      assert MayBorrow(cfg, key, row) ==> SeenBorrowed(sec, cfg, db, sess, key, row, id);
    }
  }

  /** A visible stored binding row from which the row borrows. */
  ghost predicate SeenBorrowed(sec: Security, cfg: Config, db: Database, sess: Session, key: string, row: Row, id: nat)
    requires Ranked(sec) && BINDING in sec.tables && key in cfg.entries && key in cfg.columns
  {
    && id in Rows(db, BINDING) && Borrows(sec, cfg, sess, key, row, BINDING, Rows(db, BINDING)[id])
    && Sees(sec, db, sess, BINDING, Rows(db, BINDING)[id])
  }

  /** A visible stored binding row for the account. */
  ghost predicate SeenBinding(sec: Security, db: Database, sess: Session, account: Value, id: nat)
    requires Ranked(sec) && BINDING in sec.tables
  {
    && id in Rows(db, BINDING) && BindsAccount(sec, sess, Rows(db, BINDING)[id], account)
    && Sees(sec, db, sess, BINDING, Rows(db, BINDING)[id])
  }

  lemma BorrowsFromBinding(sec: Security, cfg: Config, db: Database, sess: Session, key: string, row: Row)
    requires Enforces(sec, cfg) && PlainBindings(cfg) && key in cfg.entries && EnforcedAt(sec, cfg, key)
    requires IsAccountKind(cfg.entries[key])
    ensures BorrowsFromSeen(sec, cfg, db, sess, key, row) <==>
              exists id :: SeenBorrowed(sec, cfg, db, sess, key, row, id)
  {
    if BorrowsFromSeen(sec, cfg, db, sess, key, row) {
      var t, id :| t in sec.tables && id in Rows(db, t) && Borrows(sec, cfg, sess, key, row, t, Rows(db, t)[id])
                   && Sees(sec, db, sess, t, Rows(db, t)[id]);
      OnlyFromBinding(sec, cfg, sess, key, row, t, Rows(db, t)[id]);
      assert SeenBorrowed(sec, cfg, db, sess, key, row, id);
    }
  }

  lemma OnlyFromBinding(sec: Security, cfg: Config, sess: Session, key: string, row: Row, t: string, other: Row)
    requires key in cfg.entries && key in cfg.columns && IsAccountKind(cfg.entries[key])
    requires Borrows(sec, cfg, sess, key, row, t, other)
    ensures t == BINDING
  {
  }

  predicate MayBorrow(cfg: Config, key: string, row: Row)
    requires key in cfg.entries && key in cfg.columns
  {
    cfg.entries[key].kind == TenantOrAccount ==> NullStamp(cfg.columns[key], row)
  }

  lemma BorrowsBinding(sec: Security, cfg: Config, sess: Session, key: string, row: Row, c: string, other: Row)
    requires key in cfg.entries && key in cfg.columns && IsAccountKind(cfg.entries[key])
    requires IsAccountColumn(cfg.entries[key], c)
    ensures Borrows(sec, cfg, sess, key, row, BINDING, other) <==>
              MayBorrow(cfg, key, row) && BindsAccount(sec, sess, other, Get(row, c))
  {
  }

  /** Some visible binding row counts exactly when the account is bound. */
  lemma BoundIsSeen(sec: Security, cfg: Config, db: Database, sess: Session, account: Value)
    requires Enforces(sec, cfg) && PlainBindings(cfg)
    ensures Bound(sec, db, sess, account) <==> exists id :: SeenBinding(sec, db, sess, account, id)
  {
    if Bound(sec, db, sess, account) {
      var id :| id in Rows(db, BINDING) && Ties(sec, sess, account, Rows(db, BINDING)[id]);
      TiesIff(sec, sess, account, Rows(db, BINDING)[id]);
      OwnBindingIsSeen(sec, cfg, db, sess, Rows(db, BINDING)[id], account);
      assert SeenBinding(sec, db, sess, account, id);
    }
    if id :| SeenBinding(sec, db, sess, account, id) {
      TiesIff(sec, sess, account, Rows(db, BINDING)[id]);
    }
  }

  /**
   * A row of an account kind is read exactly in platform scope, when it is open in its own right, or, with a NULL stamp
   * where it has one, when its account is bound to the session's tenant.
   */
  lemma AccountVisibleIff(sec: Security, cfg: Config, db: Database, sess: Session, key: string, row: Row, c: string)
    requires Enforces(sec, cfg) && PlainBindings(cfg) && key in cfg.entries && EnforcedAt(sec, cfg, key)
    requires IsAccountKind(cfg.entries[key]) && IsAccountColumn(cfg.entries[key], c)
    ensures var e := cfg.entries[key];
            Sees(sec, db, sess, key, row) <==>
              || (sess.platformSetting == Some("on") && sess.platformMember)
              || (e.kind == AccountOrShared && Get(row, c) == Null)
              || (e.kind == TenantOrAccount && OwnStamp(sess, cfg.columns[key], row))
              || ((e.kind == TenantOrAccount ==> NullStamp(cfg.columns[key], row)) && Bound(sec, db, sess, Get(row, c)))
  {
    var e := cfg.entries[key];
    var open := (e.kind == AccountOrShared && Get(row, c) == Null)
                || (e.kind == TenantOrAccount && OwnStamp(sess, cfg.columns[key], row));
    AccountOpen(cfg, sess, key, row, c);
    SeesThroughBinding(sec, cfg, db, sess, key, row, c, open);
  }

  lemma AccountOpen(cfg: Config, sess: Session, key: string, row: Row, c: string)
    requires key in cfg.entries && key in cfg.columns
    requires IsAccountKind(cfg.entries[key]) && IsAccountColumn(cfg.entries[key], c)
    ensures var e := cfg.entries[key];
            Open(cfg, sess, key, row) <==>
              || (e.kind == AccountOrShared && Get(row, c) == Null)
              || (e.kind == TenantOrAccount && OwnStamp(sess, cfg.columns[key], row))
  {
  }

  lemma SeesThroughBinding(sec: Security, cfg: Config, db: Database, sess: Session, key: string, row: Row, c: string,
                           open: bool)
    requires Enforces(sec, cfg) && PlainBindings(cfg) && key in cfg.entries && EnforcedAt(sec, cfg, key)
    requires IsAccountKind(cfg.entries[key]) && IsAccountColumn(cfg.entries[key], c)
    requires open == Open(cfg, sess, key, row)
    ensures Sees(sec, db, sess, key, row) <==>
              || (sess.platformSetting == Some("on") && sess.platformMember)
              || open
              || (MayBorrow(cfg, key, row) && Bound(sec, db, sess, Get(row, c)))
  {
    SeesStep(sec, cfg, db, sess, key, row);
    BorrowsIffBound(sec, cfg, db, sess, key, row, c);
  }

  /** Rows without a tenant column are written exactly in platform scope or through a bound account; the shared rows of
    * an `account_or_shared` table, which have no account, in platform scope only. */
  lemma AccountWrittenIff(sec: Security, cfg: Config, db: Database, sess: Session, key: string, row: Row, c: string,
                          cmd: Command, side: Side)
    requires Enforces(sec, cfg) && PlainBindings(cfg) && key in cfg.entries && EnforcedAt(sec, cfg, key)
    requires cfg.entries[key].kind in {Account, AccountOrShared} && IsAccountColumn(cfg.entries[key], c)
    requires cmd != Select && Meaningful(cmd, side)
    ensures Admits(sec, db, sess, key, cmd, side, row) <==>
              (sess.platformSetting == Some("on") && sess.platformMember) || Bound(sec, db, sess, Get(row, c))
  {
    AccountVisibleIff(sec, cfg, db, sess, key, row, c);
    BorrowsIffBound(sec, cfg, db, sess, key, row, c);
    WriteMeaning(sec, cfg, db, sess, key, cmd, side, row);
  }

  lemma BindingStamp(cfg: Config, sess: Session, row: Row)
    requires PlainBindings(cfg)
    ensures OwnStamp(sess, cfg.columns[BINDING], row) <==>
              && sess.tenantSetting.Some? && sess.tenantSetting.value != ""
              && Get(row, "tenant_id") == Text(sess.tenantSetting.value)
  {
  }

  /** Off platform scope, a binding row is read and written by the sessions of the tenant it is stamped with, and by no
    * others. So only a tenant's own sessions, or platform scope, change which accounts are bound to it. */
  lemma BindingBelongsToItsTenant(sec: Security, cfg: Config, db: Database, sess: Session, cmd: Command, side: Side,
                                  row: Row)
    requires Enforces(sec, cfg) && PlainBindings(cfg) && Meaningful(cmd, side)
    ensures Admits(sec, db, sess, "commercial.CommercialAccountTenantBinding", cmd, side, row) <==>
              || (sess.platformSetting == Some("on") && sess.platformMember)
              || (sess.tenantSetting.Some? && sess.tenantSetting.value != ""
                  && Get(row, "tenant_id") == Text(sess.tenantSetting.value))
  {
    assert EnforcedAt(sec, cfg, BINDING);
    SeesStep(sec, cfg, db, sess, BINDING, row);
    BindingStamp(cfg, sess, row);
    if cmd != Select {
      WriteMeaning(sec, cfg, db, sess, BINDING, cmd, side, row);
    }
  }

  lemma {:induction false} RunKeepsBindings(sec: Security, db: Database, run: Run)
    requires Ranked(sec) && forall i | 0 <= i < |run| :: run[i].1.key != BINDING
    ensures Rows(RunAll(sec, db, run), BINDING) == Rows(db, BINDING)
    decreases |run|
  {
    if run != [] {
      ExecIsGated(sec, db, run[0].0, run[0].1, 0);
      RunKeepsBindings(sec, Exec(sec, db, run[0].0, run[0].1), run[1..]);
    }
  }

  /** Over every run that does not write the binding table, whoever runs it, what a session sees of the rows of an
    * account kind stays the same. */
  lemma RunKeepsAccountViews(sec: Security, cfg: Config, db: Database, run: Run, sess: Session, key: string, row: Row)
    requires Enforces(sec, cfg) && PlainBindings(cfg) && key in cfg.entries
    requires EnforcedAt(sec, cfg, key) && IsAccountKind(cfg.entries[key])
    requires forall i | 0 <= i < |run| :: run[i].1.key != "commercial.CommercialAccountTenantBinding"
    ensures Sees(sec, RunAll(sec, db, run), sess, key, row) <==> Sees(sec, db, sess, key, row)
  {
    var e := cfg.entries[key];
    var c := if e.column != "" then e.column else "commercial_account_id";
    RunKeepsBindings(sec, db, run);
    AccountVisibleIff(sec, cfg, db, sess, key, row, c);
    AccountVisibleIff(sec, cfg, RunAll(sec, db, run), sess, key, row, c);
  }
}
