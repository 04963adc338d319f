/**
 * The policies in plain terms: for each kind of table, which settings of a session and which values of a row let it be
 * read and written. Nothing here goes through the functions that the policies call.
 */
module TenantRules {
  import opened Common
  import opened SqlModel
  import opened PolicyCompiler
  import opened RowSecurity
  import opened Visibility
  import opened Isolation

  // ---- Platform scope

  /** A row of another tenant is read exactly in declared platform scope, by a member of the platform role. */
  lemma ForeignSeenIff(sec: Security, cfg: Config, db: Database, sess: Session, key: string, row: Row)
    requires Enforces(sec, cfg) && key in cfg.entries && EnforcedAt(sec, cfg, key) && Foreign(cfg, sess, key, row)
    ensures Sees(sec, db, sess, key, row) <==> sess.platformSetting == Some("on") && sess.platformMember
  {
    SeesStep(sec, cfg, db, sess, key, row);
    if !IsPlatform(sess) {
      ForeignIsHidden(sec, cfg, db, sess, key, row);
    }
  }

  /** And written, whatever the command, in just the same sessions. */
  lemma ForeignWrittenIff(sec: Security, cfg: Config, db: Database, sess: Session, key: string, cmd: Command,
                          side: Side, row: Row)
    requires Enforces(sec, cfg) && key in cfg.entries && EnforcedAt(sec, cfg, key) && Foreign(cfg, sess, key, row)
    requires cmd != Select && Meaningful(cmd, side)
    ensures Admits(sec, db, sess, key, cmd, side, row) <==> sess.platformSetting == Some("on") && sess.platformMember
  {
    ForeignSeenIff(sec, cfg, db, sess, key, row);
    WriteMeaning(sec, cfg, db, sess, key, cmd, side, row);
  }

  // ---- Tenant stamps

  predicate AllHex(s: string) {
    forall c | c in s :: c in "0123456789abcdefABCDEF"
  }

  /** Groups of 8, 4, 4, 4 and 12 hexadecimal digits with hyphens between them. */
  predicate IsGrouped(s: string) {
    && |s| == 36 && AllHex(s[..8]) && s[8] == '-' && AllHex(s[9..13]) && s[13] == '-' && AllHex(s[14..18])
    && s[18] == '-' && AllHex(s[19..23]) && s[23] == '-' && AllHex(s[24..])
  }

  /** The uuid value that a text spells: the capitals A to F count as the small letters. */
  predicate Spells(s: string, hex: string) {
    && IsGrouped(s) && |hex| == |s|
    && forall i | 0 <= i < |s| :: hex[i] as int == s[i] as int + if 65 <= s[i] as int <= 70 then 32 else 0
  }

  /** The stamp names the tenant that the session was set to. */
  predicate Names(sess: Session, stamp: Value) {
    sess.tenantSetting.Some? && sess.tenantSetting.value != "" &&
      match stamp
      case Text(t) => t == sess.tenantSetting.value
      case Uuid(hex) => Spells(sess.tenantSetting.value, hex)
      case _ => false
  }

  /** The column with the tenant stamp. */
  predicate IsStamp(columns: Columns, c: string) {
    c in columns && (c == "tenant_id" || (c == "tenantId" && "tenant_id" !in columns))
  }

  lemma HexDigits(c: char)
    ensures IsHexDigit(c) <==> c in "0123456789abcdefABCDEF"
    ensures IsHexDigit(c) || c == '-' ==> LowerHex(c) as int == c as int + if 65 <= c as int <= 70 then 32 else 0
  {
  }

  lemma GroupedIff(s: string)
    ensures IsUuidText(s) <==> IsGrouped(s)
  {
    forall c ensures IsHexDigit(c) <==> c in "0123456789abcdefABCDEF" {
      HexDigits(c);
    }
    if IsUuidText(s) {
      HexPart(s, 0, 8);
      HexPart(s, 9, 13);
      HexPart(s, 14, 18);
      HexPart(s, 19, 23);
      HexPart(s, 24, 36);
    }
    if IsGrouped(s) {
      GroupedIsUuid(s);
    }
  }

  lemma GroupedIsUuid(s: string)
    requires IsGrouped(s)
    ensures IsUuidText(s)
  {
    forall i | 0 <= i < 36 && i !in {8, 13, 18, 23} ensures IsHexDigit(s[i]) {
      HexAt(s, i);
      HexDigits(s[i]);
    }
  }

  lemma HexPart(s: string, from: nat, to: nat)
    requires from <= to <= |s| && forall i | from <= i < to :: s[i] in "0123456789abcdefABCDEF"
    ensures AllHex(s[from..to]) && (to == |s| ==> s[from..to] == s[from..])
  {
  }

  lemma HexAt(s: string, i: nat)
    requires IsGrouped(s) && i < 36 && i !in {8, 13, 18, 23}
    ensures s[i] in "0123456789abcdefABCDEF"
  {
    if i < 8 {
      assert s[i] in s[..8];
    } else if i < 13 {
      assert s[i] == s[9..13][i - 9];
    } else if i < 18 {
      assert s[i] == s[14..18][i - 14];
    } else if i < 23 {
      assert s[i] == s[19..23][i - 19];
    } else {
      assert s[i] == s[24..][i - 24];
    }
  }

  /** The session's tenant, as the policies of uuid columns see it. */
  lemma UuidNamed(sess: Session, hex: string)
    ensures TenantUuid(sess) == Uuid(hex) <==>
              sess.tenantSetting.Some? && sess.tenantSetting.value != "" && Spells(sess.tenantSetting.value, hex)
  {
    if sess.tenantSetting.Some? && sess.tenantSetting.value != "" {
      var s := sess.tenantSetting.value;
      GroupedIff(s);
      if IsUuidText(s) {
        var lower := seq(|s|, i requires 0 <= i < |s| => LowerHex(s[i]));
        assert TenantUuid(sess) == Uuid(lower);
        LowerIs(s, lower, hex);
      }
    }
  }

  lemma LowerIs(s: string, lower: string, hex: string)
    requires IsUuidText(s) && |lower| == |s| && forall i | 0 <= i < |s| :: lower[i] == LowerHex(s[i])
    ensures lower == hex <==>
              && |hex| == |s|
              && forall i | 0 <= i < |s| :: hex[i] as int == s[i] as int + if 65 <= s[i] as int <= 70 then 32 else 0
  {
    forall i | 0 <= i < |s|
      ensures lower[i] as int == s[i] as int + if 65 <= s[i] as int <= 70 then 32 else 0
    {
      HexDigits(s[i]);
    }
  }

  lemma OwnStampIff(sess: Session, columns: Columns, c: string, row: Row)
    requires IsStamp(columns, c)
    ensures StampColumn(columns) == Some(c)
    ensures OwnStamp(sess, columns, row) <==>
              && Names(sess, Get(row, c))
              && (if columns[c].typ == "uuid" then Get(row, c).Uuid? else Get(row, c).Text?)
  {
    if columns[c].typ == "uuid" && Get(row, c).Uuid? {
      UuidNamed(sess, Get(row, c).hex);
    }
  }

  /**
   * A stamped row, in any of the four kinds of table that carry stamps, is read exactly in platform scope or in a
   * session that is set to the tenant the stamp names; a uuid column is compared as a uuid, any other one as a text.
   */
  lemma StampedRowSeenIff(sec: Security, cfg: Config, db: Database, sess: Session, key: string, row: Row, c: string)
    requires Enforces(sec, cfg) && key in cfg.entries && EnforcedAt(sec, cfg, key)
    requires cfg.entries[key].kind in {Tenant, TenantOrShared, TenantOrAccount, TenantOrParent}
    requires IsStamp(cfg.columns[key], c)
    requires if cfg.columns[key][c].typ == "uuid" then Get(row, c).Uuid? else Get(row, c).Text?
    ensures Sees(sec, db, sess, key, row) <==>
              (sess.platformSetting == Some("on") && sess.platformMember) || Names(sess, Get(row, c))
  {
    OwnStampIff(sess, cfg.columns[key], c, row);
    SeesStep(sec, cfg, db, sess, key, row);
  }

  /** And written, whatever the command and the side, in just the same sessions. */
  lemma StampedRowWrittenIff(sec: Security, cfg: Config, db: Database, sess: Session, key: string, row: Row, c: string,
                             cmd: Command, side: Side)
    requires Enforces(sec, cfg) && key in cfg.entries && EnforcedAt(sec, cfg, key)
    requires cfg.entries[key].kind in {Tenant, TenantOrShared, TenantOrAccount, TenantOrParent}
    requires IsStamp(cfg.columns[key], c) && cmd != Select && Meaningful(cmd, side)
    requires if cfg.columns[key][c].typ == "uuid" then Get(row, c).Uuid? else Get(row, c).Text?
    ensures Admits(sec, db, sess, key, cmd, side, row) <==>
              (sess.platformSetting == Some("on") && sess.platformMember) || Names(sess, Get(row, c))
  {
    OwnStampIff(sess, cfg.columns[key], c, row);
    StampedRowSeenIff(sec, cfg, db, sess, key, row, c);
    WriteMeaning(sec, cfg, db, sess, key, cmd, side, row);
  }

  /** A row without a stamp: reserved to platform scope in a `tenant` table, read by all in a `tenant_or_shared` one,
    * and in neither written off platform scope. */
  lemma UnstampedRowIff(sec: Security, cfg: Config, db: Database, sess: Session, key: string, row: Row, c: string,
                        cmd: Command, side: Side)
    requires Enforces(sec, cfg) && key in cfg.entries && EnforcedAt(sec, cfg, key)
    requires cfg.entries[key].kind in {Tenant, TenantOrShared}
    requires IsStamp(cfg.columns[key], c) && Get(row, c) == Null && cmd != Select && Meaningful(cmd, side)
    ensures Sees(sec, db, sess, key, row) <==>
              || (sess.platformSetting == Some("on") && sess.platformMember)
              || cfg.entries[key].kind == TenantOrShared
    ensures Admits(sec, db, sess, key, cmd, side, row) <==>
              sess.platformSetting == Some("on") && sess.platformMember
  {
    OwnStampIff(sess, cfg.columns[key], c, row);
    SeesStep(sec, cfg, db, sess, key, row);
    WriteMeaning(sec, cfg, db, sess, key, cmd, side, row);
  }

  // ---- The other kinds

  /** A row of a `tenant_pair` table is read exactly when one of the listed columns holds the session's tenant. */
  lemma PairRowSeenIff(sec: Security, cfg: Config, db: Database, sess: Session, key: string, row: Row)
    requires Enforces(sec, cfg) && key in cfg.entries && EnforcedAt(sec, cfg, key)
    requires cfg.entries[key].kind == TenantPair
    ensures Sees(sec, db, sess, key, row) <==>
              || (sess.platformSetting == Some("on") && sess.platformMember)
              || (sess.tenantSetting.Some? && sess.tenantSetting.value != "" &&
                  exists c :: c in cfg.entries[key].columns && Get(row, c) == Text(sess.tenantSetting.value))
  {
    SeesStep(sec, cfg, db, sess, key, row);
    var names := cfg.entries[key].columns;
    if OwnPair(sess, names, row) {
      var i :| 0 <= i < |names| && Get(row, names[i]) == TenantId(sess);
      assert names[i] in names;
    }
  }

  /** A row of a `parent` table is read exactly when a stored row of the parent table, the one its key points at, is. */
  lemma ChildRowSeenIff(sec: Security, cfg: Config, db: Database, sess: Session, key: string, row: Row)
    requires Enforces(sec, cfg) && key in cfg.entries && EnforcedAt(sec, cfg, key) && cfg.entries[key].kind == Parent
    ensures var e := cfg.entries[key];
            && e.parent in sec.tables
            && (Sees(sec, db, sess, key, row) <==>
                  || (sess.platformSetting == Some("on") && sess.platformMember)
                  || (Get(row, e.fk) != Null &&
                      exists id :: id in Rows(db, e.parent) && Get(Rows(db, e.parent)[id], "id") == Get(row, e.fk)
                                   && Sees(sec, db, sess, e.parent, Rows(db, e.parent)[id])))
  {
    var e := cfg.entries[key];
    SeesStep(sec, cfg, db, sess, key, row);
    LookupBelow(sec, cfg, key);
    BorrowsOneTable(sec, cfg, db, sess, key, row);
  }

  /** A row of a `group_account` table is an account: it is read exactly when a member account of its group is. */
  lemma GroupRowSeenIff(sec: Security, cfg: Config, db: Database, sess: Session, key: string, row: Row)
    requires Enforces(sec, cfg) && key in cfg.entries && EnforcedAt(sec, cfg, key)
    requires cfg.entries[key].kind == GroupAccount
    ensures var accounts := "commercial.CommercialAccount";
            && accounts in sec.tables
            && (Sees(sec, db, sess, key, row) <==>
                  || (sess.platformSetting == Some("on") && sess.platformMember)
                  || (Get(row, "id") != Null &&
                      exists id :: id in Rows(db, accounts)
                                   && Get(Rows(db, accounts)[id], "group_account_id") == Get(row, "id")
                                   && Sees(sec, db, sess, accounts, Rows(db, accounts)[id])))
  {
    SeesStep(sec, cfg, db, sess, key, row);
    LookupBelow(sec, cfg, key);
    BorrowsOneTable(sec, cfg, db, sess, key, row);
  }

  /** Exempt tables are open to everybody. */
  lemma ExemptRowsAreOpen(sec: Security, cfg: Config, db: Database, sess: Session, key: string, row: Row, cmd: Command,
                          side: Side)
    requires Enforces(sec, cfg) && key in cfg.entries && EnforcedAt(sec, cfg, key)
    requires cfg.entries[key].kind in {Global, ControlPlane}
    ensures Admits(sec, db, sess, key, cmd, side, row)
  {
  }

  // ---- Row security itself

  /** Without FORCE the owner of a table is not filtered; everybody else, and with FORCE the owner too, gets no row that
    * no policy admits. */
  lemma OwnerNeedsForce(sec: Security, db: Database, sess: Session, key: string, row: Row, cmd: Command, side: Side)
    requires Ranked(sec) && key in sec.tables && sec.tables[key].enabled && sec.tables[key].policies == map[]
    ensures Admits(sec, db, sess, key, cmd, side, row) <==> sess.tableOwner && !sec.tables[key].forced
  {
  }
}
