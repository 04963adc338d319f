# ZoikoShield scripts: a verified model

This project models the algorithms behind ZoikoShield's operational scripts and proves what they
are for. Every `.dfy` file is checked by `dafny verify dfyconfig.toml`; nothing else is needed.

* **Tenant row security** (`SqlModel`, `PolicyCompiler`, `RowSecurity`, `Visibility`, `Isolation`,
  `TenantRules`, `OwnWrites`, `AnchoredRows`, `AccountBindings`, `CompilerConditions`). The nine
  isolation kinds compile to policy expressions, which are evaluated in SQL's three-valued logic; a
  lookup inside a policy is itself filtered by the policies of the table it reads, so visibility is
  recursive. Statements are steps gated by USING and WITH CHECK, and the main results are about all
  runs: isolation, and non-interference between unrelated tenants.
* **Applying the policy** (`RoleGraph`, `AccessState`, `AccessApply`, `AccessGuarantees`,
  `GrantsInFull`, `CommitConditions`). The script's `main` is a class over a committed and a working
  catalogue. `Accepts` is the exact condition under which it commits and `Target` what it commits;
  exact grants, self-healing, idempotence and isolation follow. `RoleGraph` holds the memberships of
  roles, which PostgreSQL keeps free of circles.
* **ZS-MERKLE-V1** (`MerkleShape`, `Merkle`, `MerkleTheorems`, `MerklePadding`, `MerkleProofs`).
  `MerkleShape` holds the shape of the bottom-up pairing for any node function; the hash is a
  parameter, and "no collision" is assumed only for the finitely many inputs that a statement hashes.
  Domain separation is by the prefix bytes.
* **PDF writers** (`PdfText`, `PdfFile`, `PdfRefs`, `Pagination`, `PdfPages`, `PdfLinks`,
  `PdfReadBack`, `PdfDocument`, `PdfBuilder`, `PdfBuilderReader`). For each of the two writers, a
  reader for the emitted subset of ISO 32000-1 goes from the bytes alone to every page, text and link.
* **OpenAPI fixers** (`SwaggerLines`, `SecurityFix`, `TenantHeaderFix`, `TenantHeaderTheorems`,
  `TenantHeaderLayout`, `SwaggerKeys`). The fixers go by lines; what a YAML reader makes of the
  result, indentation of list entries included, is stated next to what they write.
* **Load-test bookkeeping** (`LoadTest`, `LoadTestReport`) and the **directory digest**
  (`DirectoryDigest`, `DigestStream`).

`Common` holds the option and result types and small sequence helpers.

Code that works by changing things step by step is a class or a method with a loop here, proved
against a specification function; the lemmas are about those functions. Where a result rests on a
name, a byte or a number of the scripts, some theorem states it with that name, byte or number.

## Where code and documentation disagree

* The comment at `backend/scripts/benchmark-evidence-growth-curve.ts:67-71` calls the tree standard
  RFC 6962. An odd last node is paired with itself, so the root equals section 2.1 of RFC 6962
  exactly for power-of-two sizes (`MerkleTheorems.RootIsRfcRootIff`), and three leaves share their root
  with four, the last one twice (`MerklePadding.OddBatchSharesRoot`).
* `scripts/generate-platform-walkthrough-pdf.js` overwrites its first font object with the page tree,
  so `/F1` does not name a font (`PdfBuilder.FirstFontIsOverwritten`).
* Literal-string escaping leaves carriage returns bare, which a reader normalises to line feeds;
  the round trip is the identity exactly without them (`PdfText.NormalizeIsIdentityIff`).
* `--fix-security` writes its entries at six spaces and takes only lines of that shape for the old
  ones. `docs/swagger.yaml` has its entries at eight spaces: they stay below the new ones, and the
  file can no longer be read (`SecurityFix.NestedWitness`). The fix makes the check pass exactly when
  every line it leaves below a block is harmless (`SecurityFix.CheckPassesIff`).
* `--fix-security` keeps the non-primary schemes of an operation only when no primary scheme is
  expected of it; otherwise they are dropped. As a rewriting of lines it is idempotent except for
  requirement lines that directly follow `security: []` (`SecurityFix.IdempotentIff`). The file is
  parsed before it is fixed (line 120), so such lines can only stand where YAML takes them as text, as
  in a block scalar below a method (`SecurityFix.StrayWitness`).
* `--fix-tenant-headers` puts its entry at six spaces above the entries of `docs/swagger.yaml`, which
  stand at eight, so that the fixed file cannot be read (`TenantHeaderLayout.NestedListWitness`), and
  a second `parameters` key into an operation that says `parameters: []`
  (`TenantHeaderLayout.EmptyListWitness`). `TenantHeaderLayout.FixedFileReadableIff` is the exact
  condition.
* `SimplePDFBuilder` escapes the text it draws but not the addresses of its links
  (`PdfBuilder.LinkReadsBackIff`).
* The directory digest is independent of the listing order only if no two names compare as equal;
  `localeCompare` does not promise that for different strings (`DirectoryDigest.DeterministicIff`).
  It hashes names and contents with nothing between them, and no directory names, so that different
  trees can have one digest (`DigestStream.BoundaryWitness`, `DigestStream.DirectoryNamesAreNotHashed`).
* `inFlight` returns to zero after all promises have settled exactly when no request emits both a
  response end and an error (`LoadTest.SettledIsZeroIff`, `LoadTest.SettledTwiceWitness`).

## Model

| member | source | states |
|---|---|---|
| `Visibility.ExpressionsMean` | backend/scripts/apply-database-access.js:96-173 | Compiling a table entry either fails or yields the intended read and write predicates of its isolation kind; exempt and unknown kinds never compile, and the four stamped kinds compile only for tables with a tenant column |
| `CompilerConditions.CompilesIff` | backend/scripts/apply-database-access.js:96-173 | An entry compiles exactly when its key is "schema.table" with a table name that can be written and its kind finds what it asks for, spelled out for each of the nine kinds: a tenant column, an account column, a parent key and foreign key, a non-empty list of pair columns, or nothing |
| `CompilerConditions.PairIff` | backend/scripts/apply-database-access.js:37-42 | Splitting a key at its dots gives two parts exactly when it is one text, a dot and another text without further dots |
| `Visibility.PairMeaning` | backend/scripts/apply-database-access.js:162-165 | The OR over the columns of a `tenant_pair` entry is true of a row exactly when some listed column holds the session tenant, with NULL settings and NULL columns matching nothing |
| `Visibility.DecidingPolicy` | backend/scripts/apply-database-access.js:183-196 | Of the policies created for a table exactly one speaks for each command, and it contributes the read expression to SELECT and the write expression to every write |
| `Visibility.CommandMeaning` | backend/scripts/apply-database-access.js:175-198 | A row passes the USING or WITH CHECK side of a command exactly when the compiled read (SELECT) or write expression is true, not unknown, of it |
| `Visibility.BorrowMeaning` | backend/scripts/apply-database-access.js:78-84 | The EXISTS lookups of a policy hold exactly when some stored row of the looked-up table matches and is itself visible to the session under its own table's policies |
| `Visibility.EvalMeant` | backend/scripts/apply-database-access.js:96-173 | Under three-valued logic, a compiled read predicate is true exactly for platform scope, for rows whose direct test (stamp, NULL owner, pair) is true, or for rows whose lookup holds, the lookup of the `tenant_or_*` kinds counting only when the stamp is NULL |
| `Visibility.SeesStep` | backend/scripts/apply-database-access.js:125-173 | One unfolding of visibility for all nine kinds: a row is readable exactly on platform scope, in its own right, or because a row it refers to is readable |
| `TenantRules.StampedRowSeenIff` | backend/scripts/apply-database-access.js:62-76 | A stamped row of any of the four stamped kinds is read exactly when the session has `app.platform_scope` set to `on` and holds the platform role, or its `app.tenant_id` is the text of the stamp or, for a uuid column, spells its uuid in small or capital letters |
| `TenantRules.StampedRowWrittenIff` | backend/scripts/apply-database-access.js:126-198 | And written, on every side of every command, in just the same sessions |
| `TenantRules.UnstampedRowIff` | backend/scripts/apply-database-access.js:126-140 | A row with a NULL stamp is reserved to platform scope in a `tenant` table and read by all in a `tenant_or_shared` one; in neither is it written off platform scope |
| `TenantRules.PairRowSeenIff` | backend/scripts/apply-database-access.js:162-165 | A `tenant_pair` row is read exactly in platform scope or when a listed column holds the text of `app.tenant_id` |
| `TenantRules.ChildRowSeenIff` | backend/scripts/apply-database-access.js:121-124 | A `parent` row is read exactly in platform scope or when a visible stored row of the parent table has the `id` that its key names |
| `TenantRules.GroupRowSeenIff` | backend/scripts/apply-database-access.js:166-169 | A `group_account` row is read exactly in platform scope or when a visible account of its group is stored |
| `TenantRules.ExemptRowsAreOpen` | backend/scripts/apply-database-access.js:348-352 | Rows of `global` and `control_plane` tables are open to every session and command |
| `TenantRules.OwnerNeedsForce` | backend/scripts/apply-database-access.js:178-182 | Without a policy nobody gets a row of an enabled table, except its owner while row security is not forced |
| `Visibility.WriteMeaning` | backend/scripts/apply-database-access.js:130-198 | Write permission is read permission for every kind, command and side, narrowed in the two shared kinds to rows owned by the session; so writing implies reading, and NULL-owner shared rows are readable but never writable off platform scope |
| `Visibility.VisibleIffChain` | backend/scripts/apply-database-access.js:96-173 | Off platform scope a row of any kind is visible exactly when a chain of foreign keys, account bindings and group memberships leads from it, through stored rows, to a row that is open to the session |
| `Isolation.VisibleIffFirstStampIsOwn` | backend/scripts/apply-database-access.js:121-161 | For a table whose parent keys lead through `parent` and `tenant_or_parent` tables to a `tenant` table, whatever the rest of the policy file holds: a row is visible off platform scope exactly when the first stamped row met by following its parent keys carries the session's tenant |
| `Isolation.VisibleIffAnchorIs` | backend/scripts/apply-database-access.js:121-161 | For every table of every policy file: a row is visible off platform scope exactly when the walk up its parent keys ends, and the row where it ends is visible; a null or dangling key leaves the row hidden |
| `Isolation.SeesParent` | backend/scripts/apply-database-access.js:121-161 | A child row that is not open in its own right is visible exactly when its one parent row is (and, for `tenant_or_parent`, its own stamp is NULL) |
| `Isolation.ExecIsGated` | backend/scripts/apply-database-access.js:175-198 | Whatever an INSERT, UPDATE or DELETE removes or changes passed a USING test, whatever it leaves behind passed a WITH CHECK test, and no other table changes |
| `Isolation.OffLimitsIsUnwritable` | backend/scripts/apply-database-access.js:126-198 | No write policy of any kind admits, on either side, a row stamped with another tenant or a shared (NULL-owner) row |
| `Isolation.ForeignIsHidden` | backend/scripts/apply-database-access.js:126-198 | A row stamped with another tenant is invisible, whatever its parent, account or group would allow |
| `TenantRules.ForeignSeenIff` | backend/scripts/apply-database-access.js:73-76 | A row stamped with another tenant is read exactly in sessions that declare platform scope and hold the platform role |
| `TenantRules.ForeignWrittenIff` | backend/scripts/apply-database-access.js:73-76 | And written in just those, whatever the command and the side |
| `Isolation.RunKeepsForeignRows` | backend/scripts/apply-database-access.js:73-198 | Over every sequence of inserts, updates and deletes by any set of sessions none of which both declares platform scope and holds its role, the rows stamped for none of them and the shared rows are neither created, changed, re-stamped nor deleted |
| `OwnWrites.InsertAddsOwn` | backend/scripts/apply-database-access.js:175-198 | Off platform scope an INSERT into a `tenant` table adds its rows if they are new and all carry the session's tenant, and changes nothing otherwise |
| `OwnWrites.UpdateReplacesOwn` | backend/scripts/apply-database-access.js:175-198 | An UPDATE replaces exactly the session's own rows among those it names, unless a new row would leave the tenant: then it changes nothing |
| `OwnWrites.DeleteTakesOwn` | backend/scripts/apply-database-access.js:175-198 | A DELETE removes exactly the session's own rows among those it names |
| `AnchoredRows.RunKeepsAnchoredRows` | backend/scripts/apply-database-access.js:121-198 | Over every run of non-platform sessions that keeps the ids of parent tables unique, the rows of any table whose walk up the parent keys ends at a row of a tenant that none of them acts for are neither created, changed, moved nor deleted |
| `AccountBindings.AccountVisibleIff` | backend/scripts/apply-database-access.js:78-84 | A row of an account kind is read exactly in platform scope, when it is open in its own right, or, with a NULL stamp where it has one, when a stored binding row holds its account, the session's tenant and one of the visible states |
| `AccountBindings.AccountWrittenIff` | backend/scripts/apply-database-access.js:149-159 | Rows of `account` and `account_or_shared` tables are written exactly in platform scope or through such a binding; so the shared ones in platform scope only |
| `AccountBindings.BindingBelongsToItsTenant` | backend/scripts/apply-database-access.js:126-131 | A binding row is read and written, on either side of every command, exactly in platform scope and by the sessions of the tenant it is stamped with |
| `AccountBindings.RunKeepsAccountViews` | backend/scripts/apply-database-access.js:72-84 | Whatever statements are run by anybody, as long as none writes the binding table, a session's view of account rows stays the same |
| `Isolation.ViewIgnoresForeign` | backend/scripts/apply-database-access.js:95-198 | The result of a SELECT does not depend on rows stamped with other tenants in any table, lookups included (non-interference) |
| `Isolation.RunIsInvisible` | backend/scripts/apply-database-access.js:95-198 | However many statements unrelated tenants run on `tenant` and `tenant_or_shared` tables, no SELECT of the reader on any table changes |
| `Isolation.UnscopedSeesNoStamp` | backend/scripts/apply-database-access.js:62-84 | A session with no tenant, or an empty one, reads no stamped row of any kind; only NULL-owner rows of the shared kinds and rows inherited through parents remain |
| `Isolation.MalformedSeesNoUuidStamp` | backend/scripts/apply-database-access.js:66-71 | A tenant setting that is not shaped like a uuid reads and writes no stamped row of a table whose tenant column is a uuid |
| `Isolation.SameUuidIff` | backend/scripts/apply-database-access.js:66-71 | Two settings are the same tenant for uuid columns exactly when both are shaped like a uuid and differ at most in letter case |
| `Isolation.SpellingsOfOneUuid` | backend/scripts/apply-database-access.js:62-71 | Two spellings of one uuid own the same rows where the tenant column is a uuid, and never the same row where it is text |
| `AccessApply.PgClient.CreateRoles` | backend/scripts/apply-database-access.js:227-231 | Creates every missing role; fails exactly when a role name is not a safe identifier, or is missing and one that PostgreSQL reserves |
| `AccessApply.PgClient.InstallFunctions` | backend/scripts/apply-database-access.js:58-94 | Installs the schema and the visible binding states; fails exactly when the list of states is empty (`IN ()`) or the binding table lacks a column or has one of a type that does not compare with text or with a state |
| `AccessApply.PgClient.LoadTables` | backend/scripts/apply-database-access.js:239-255 | The nested maps built row by row are exactly the managed tables of the catalogue with their columns |
| `AccessApply.PgClient.Classify` | backend/scripts/apply-database-access.js:258-279 | Succeeds exactly when no policy entry is stale and no table undecided, and then classifies every managed table: by its entry, or as `tenant` when its tenant column is NOT NULL |
| `AccessApply.PgClient.RevokeAll` | backend/scripts/apply-database-access.js:281-293 | Afterwards exactly the grants that the policy controls are gone; other grants are untouched; an unsafe schema or role name, or a schema that is not there, stops it |
| `AccessApply.PgClient.GrantServiceRoles` | backend/scripts/apply-database-access.js:307-334 | Grants every service role the union its specification denotes: all schemas, or own schemas read-write plus single tables; fails exactly when a specification names something unknown or a membership in the platform role would close a circle |
| `AccessApply.PgClient.GrantRole` | backend/scripts/apply-database-access.js:236 | Adds one membership; fails exactly when it would close a circle |
| `RoleGraph.GrantClosesNoLoop` | backend/scripts/apply-database-access.js:375 | The database's test, that the role is not already below the new member, is exactly that the memberships stay free of circles |
| `AccessApply.PgClient.DropShieldPolicies` | backend/scripts/apply-database-access.js:341-347 | Drops every policy whose name starts with `shield_` and no other |
| `AccessApply.PgClient.RebuildTable` | backend/scripts/apply-database-access.js:340-355 | Leaves the table either exempt (not forced, disabled) or enabled and forced under exactly its compiled `shield_` policies; fails exactly on an unsafe name, a compilation error, or a column or table that is missing or whose type the database does not compare |
| `AccessApply.PgClient.RunStatements` | backend/scripts/apply-database-access.js:353-355 | Runs policy statements one by one, stopping at the first that PostgreSQL rejects |
| `AccessApply.StatementsBuildTarget` | backend/scripts/apply-database-access.js:175-198 | The emitted statement list runs on a table without `shield_` policies exactly when its expressions resolve, and builds the intended policies |
| `AccessApply.PgClient.RebuildAll` | backend/scripts/apply-database-access.js:336-356 | Rebuilds all classified tables in any order, counting them by kind; succeeds exactly when every table would |
| `AccessApply.PgClient.GrantMembers` | backend/scripts/apply-database-access.js:358-377 | Adds the environment's login users to service roles; fails exactly on an unknown role, a missing login, an unsafe name or memberships that close a circle, in whatever order they are granted |
| `AccessApply.PgClient.RunInTransaction` | backend/scripts/apply-database-access.js:222-388 | The body of the transaction succeeds exactly on the databases that meet one stated condition (names, types, catalogue, memberships), and then produces exactly the target state |
| `AccessApply.PgClient.Apply` | backend/scripts/apply-database-access.js:220-397 | All or nothing: success commits exactly the target state, any failure leaves the committed state unchanged, and success happens exactly under the stated condition |
| `CommitConditions.CommitsIff` | backend/scripts/apply-database-access.js:220-397 | The condition for success in full: which names, roles, schemas, binding columns and logins there have to be, for every managed table a decision and, by its kind, the columns, parent and types it needs, and memberships without circles |
| `CommitConditions.TableCommitsIff` | backend/scripts/apply-database-access.js:96-198 | One table passes exactly when its key and its `shield_` policies can be named and its kind is exempt, or compiles and finds types that compare |
| `CommitConditions.TableAfter` | backend/scripts/apply-database-access.js:340-355 | After a commit a managed table has row security enabled and forced unless its kind is `global` or `control_plane`; policies not named `shield_...` are as before, and exempt tables keep no others |
| `CommitConditions.AuditAfter` | backend/scripts/apply-database-access.js:379-388 | The audit log gains one entry with the policy's digest, the number of managed tables, of tables per kind and of schemas, and the service roles |
| `CommitConditions.FunctionsAfter` | backend/scripts/apply-database-access.js:58-94 | Afterwards the schema of the session functions is there and the visible binding states are those of the policy file; tables, sequences and types are as before |
| `AccessApply.PgClient.constructor` | backend/scripts/apply-database-access.js:204-220 | A fresh connection sees the committed state |
| `AccessGuarantees.GrantsAreExact` | backend/scripts/apply-database-access.js:281-334 | After a commit a service role has been granted a privilege on a managed schema, table or sequence exactly when its specification denotes it, whatever it held before |
| `GrantsInFull.TablePrivilegeIff` | backend/scripts/apply-database-access.js:294-334 | A service role has a table privilege exactly when it has the schema and the privilege is SELECT, INSERT, UPDATE or DELETE, or when, without all schemas, the policy file names the table: SELECT in either mode, the other three in read-write mode only |
| `GrantsInFull.SequencePrivilegeIff` | backend/scripts/apply-database-access.js:294-306 | A sequence may be used and read, never set, exactly by the roles that have its schema |
| `GrantsInFull.SchemaPrivilegeIff` | backend/scripts/apply-database-access.js:294-329 | A schema may be used exactly by the roles that have it or a single table in it; none may create in it |
| `GrantsInFull.PublicHasNoSchema` | backend/scripts/apply-database-access.js:283-284 | PUBLIC keeps no privilege on a managed schema or on that of the session functions |
| `GrantsInFull.FunctionsAreUsable` | backend/scripts/apply-database-access.js:309-312 | Every service role may use the session functions and their schema |
| `GrantsInFull.MembershipsAfter` | backend/scripts/apply-database-access.js:227-377 | The memberships afterwards are those before, the platform role's for the migration user and every service role, and the service roles' for their logins; the roles are those before and those named |
| `AccessGuarantees.EffectiveIff` | backend/scripts/apply-database-access.js:281-334 | What a service role can use after a commit is what its specification denotes plus exactly what reaches it past the policy file: table and sequence grants to PUBLIC, and what the roles it is a member of hold |
| `AccessGuarantees.OtherGrantsAreKept` | backend/scripts/apply-database-access.js:281-334 | Privileges of other roles and on other schemas are what they were |
| `GrantsInFull.OthersKeepTheirs` | backend/scripts/apply-database-access.js:281-334 | Roles outside the policy file keep all privileges they have, and PUBLIC those on tables, sequences and functions |
| `GrantsInFull.UnmanagedTablesStay` | backend/scripts/apply-database-access.js:281-334 | A service role keeps what it has on the tables of schemas that the script does not manage |
| `AccessGuarantees.NoTruncate` | backend/scripts/apply-database-access.js:281-334 | No service role keeps or is granted a table privilege other than SELECT, INSERT, UPDATE and DELETE on a managed table |
| `AccessGuarantees.TruncateComesFromOutside` | backend/scripts/apply-database-access.js:281-334 | A service role can use such a privilege exactly when PUBLIC holds it or a role outside the policy file does that the service role is a member of |
| `AccessGuarantees.EveryTableIsDecided` | backend/scripts/apply-database-access.js:257-279 | After a commit every managed table is classified and either exempt with no `shield_` policy or enabled, forced and under exactly its compiled ones; policies with other names are kept |
| `AccessGuarantees.TargetPolicies` | backend/scripts/apply-database-access.js:336-356 | Rebuilding replaces exactly the `shield_` policies of a table by the compiled ones |
| `AccessGuarantees.SecondRunOnlyAudits` | backend/scripts/apply-database-access.js:222-388 | A second run commits again and changes nothing but the audit log, which gains one equal entry |
| `AccessGuarantees.StillAccepts` | backend/scripts/apply-database-access.js:222-388 | A committed run leaves a database on which the script succeeds again |
| `AccessGuarantees.OutcomeForgetsThePast` | backend/scripts/apply-database-access.js:336-356 | Self-healing: from any two databases with the same catalogue, the flags, `shield_` policies and controlled grants come out the same |
| `AccessGuarantees.PlainSchemaIsAccepted` | backend/scripts/apply-database-access.js:257-279 | With an empty table list the script commits on every schema whose tables carry a NOT NULL tenant column under either name, for any roles and logins that can be created and granted, and the conditions of the isolation results hold after it |
| `AccessGuarantees.CommitEnforces` | backend/scripts/apply-database-access.js:336-356 | The committed catalogue enforces the compiled policies of every managed table, without cyclic lookups |
| `AccessGuarantees.CommitIsolates` | backend/scripts/apply-database-access.js:95-198 | From one committed run on, however non-platform sessions interleave their statements, none creates, changes, deletes or sees a row stamped with a tenant that none of them acts for |
| `Merkle.PairUp` | backend/scripts/benchmark-evidence-growth-curve.ts:89-100 | One pass over a layer pairs neighbours, an odd last node with itself |
| `Merkle.ZsMerkleV1ScaleTree.constructor` | backend/scripts/benchmark-evidence-growth-curve.ts:76-84 | Leaves are the 0x00-prefixed digests of the payloads, and the layers are those of the tree over them |
| `Merkle.ZsMerkleV1ScaleTree.BuildTree` | backend/scripts/benchmark-evidence-growth-curve.ts:86-104 | The loop terminates (each layer is half as long) with all layers from the leaves to a single root |
| `Merkle.ZsMerkleV1ScaleTree.GetRoot` | backend/scripts/benchmark-evidence-growth-curve.ts:106-109 | The root is the last layer's node, or the digest of nothing for an empty batch |
| `Merkle.ZsMerkleV1ScaleTree.GetProof` | backend/scripts/benchmark-evidence-growth-curve.ts:111-135 | For every index, inside the batch or not, the index arithmetic yields one step per layer below the root, with the sibling, the node itself, or a missing hash |
| `MerkleProofs.GeneratedIsPath` | backend/scripts/benchmark-evidence-growth-curve.ts:111-135 | For an index of the batch it is the sibling path of the leaf through the layers, with no hash missing |
| `MerkleProofs.NoneMissingIff` | backend/scripts/benchmark-evidence-growth-curve.ts:111-135 | No hash is missing exactly for the indices of the batch and, in a batch of odd size, the one index behind it; a batch of at most one leaf needs no hash at all |
| `MerkleProofs.PaddingProofIsAccepted` | backend/scripts/benchmark-evidence-growth-curve.ts:111-152 | The proof for that one index behind an odd batch is accepted for the last payload, although it is not the proof generated for it |
| `Merkle.ZsMerkleV1ScaleTree.VerifyInclusionProof` | backend/scripts/benchmark-evidence-growth-curve.ts:137-152 | Accepts exactly when hashing from the 0x00-prefixed payload along the steps gives the expected root |
| `MerkleShape.DepthIsCeilLog2` | backend/scripts/benchmark-evidence-growth-curve.ts:86-104 | The number of rounds is the rounded-up binary logarithm of the number of leaves |
| `MerkleShape.BottomUpIsTopDown` | backend/scripts/benchmark-evidence-growth-curve.ts:86-109 | For every node function, pairing layers bottom-up computes the top-down recursive fold of the padded list |
| `MerkleShape.PaddedExtends` | backend/scripts/benchmark-evidence-growth-curve.ts:89-92 | The padded list starts with the batch, has a power-of-two length and holds no payload that the batch does not |
| `MerkleShape.PathOfLeaf` | backend/scripts/benchmark-evidence-growth-curve.ts:111-135 | The path read off the layers by index arithmetic, self-paired nodes included, is the authentication path of the leaf in the top-down tree of the padded list |
| `MerkleShape.PathLeadsToRoot` | backend/scripts/benchmark-evidence-growth-curve.ts:145-149 | Following the path of a leaf from its digest leads to the top of the tree, for every node function |
| `MerkleTheorems.LeadingPathIsGenuine` | backend/scripts/benchmark-evidence-growth-curve.ts:137-152 | Unless two of the hashed inputs collide, a proof of any length that leads to the root of a full tree is, step by step, the path of a leaf holding the payload |
| `MerkleTheorems.AcceptedIffPath` | backend/scripts/benchmark-evidence-growth-curve.ts:137-152 | Soundness and completeness in one: a proof of any length is accepted exactly when it is the authentication path of a leaf of the padded batch that holds the payload |
| `MerkleTheorems.AcceptedIsIncluded` | backend/scripts/benchmark-evidence-growth-curve.ts:137-152 | An accepted payload was in the batch, and its proof has exactly one step per round |
| `MerkleTheorems.ProofIsAccepted` | backend/scripts/benchmark-evidence-growth-curve.ts:111-152 | For every non-empty batch and every index the generated proof has the rounded-up binary logarithm of the size as length and is accepted, with no assumption on the hash |
| `MerkleTheorems.RootIsMthOfPadded` | backend/scripts/benchmark-evidence-growth-curve.ts:67-109 | The root is the Merkle Tree Hash of section 2.1 of RFC 6962, defined by its prefix bytes, taken of the padded batch |
| `MerkleTheorems.MthInjective` | backend/scripts/benchmark-evidence-growth-curve.ts:67-71 | Without collisions the Merkle Tree Hash determines the list, its length included, thanks to the 0x00/0x01 prefixes |
| `MerkleTheorems.SameRootIffSamePadded` | backend/scripts/benchmark-evidence-growth-curve.ts:86-109 | Two batches have the same root exactly when their padded lists are equal |
| `MerklePadding.PaddedAt` | backend/scripts/benchmark-evidence-growth-curve.ts:89-92 | Which leaf stands at each position of the padded list, computed from the position and the size of the batch alone |
| `MerklePadding.SameRootIff` | backend/scripts/benchmark-evidence-growth-curve.ts:86-109 | Without collisions two batches share a root exactly when, position by position of the padded list, these leaves are equal |
| `MerklePadding.OddBatchSharesRoot` | backend/scripts/benchmark-evidence-growth-curve.ts:89-92 | A batch of odd size above one and the same batch with its last payload once more have one root, for every hash |
| `MerkleTheorems.RootIsRfcRootIff` | backend/scripts/benchmark-evidence-growth-curve.ts:67-71 | The root is that hash of the batch itself exactly for power-of-two sizes and the empty batch |
| `MerkleTheorems.EpochRoot` | backend/scripts/full-platform-verifier.ts:680-697 | The one-level loop of Stage 18 computes the fold of the padded leaves under its own node function (the digest of the concatenated texts) |
| `PdfText.Utf8CharDecodes` | scripts/generate_links_pdf.js:302 | A character is read back from the front of its UTF-8 encoding, whatever follows |
| `PdfText.EscapeIsOnePass` | scripts/generate_links_pdf.js:339-344 | The three global replacements in sequence equal one pass that escapes each backslash and parenthesis |
| `PdfText.EscapeRoundTrip` | scripts/generate_links_pdf.js:339-344 | A literal-string lexer after section 7.3.4.2 of ISO 32000-1 reads the escaped text back up to line-ending normalisation and stops at the closing parenthesis |
| `PdfText.NormalizeIsIdentityIff` | scripts/generate_links_pdf.js:339-344 | The round trip is the identity exactly for texts without carriage returns, which the escaping leaves bare |
| `PdfText.Pad10Reads` | scripts/generate_links_pdf.js:332 | Padding a byte offset to ten digits keeps its value, and gives ten digits exactly below 10^10 |
| `PdfFile.EntryIsTwentyBytes` | scripts/generate_links_pdf.js:332 | A cross-reference entry has the required twenty bytes exactly for offsets below 10^10 |
| `PdfFile.WriteTableAndTrailer` | scripts/generate_links_pdf.js:329-335 | The emitted table and trailer are exactly those of the file layout, byte for byte |
| `PdfFile.FileReadsBack` | scripts/generate_links_pdf.js:320-336 | A reader that goes from the end of the file through startxref and the table recovers every object body under its number, whatever bytes the bodies hold, for files with the table below byte 10^10 (ISO 32000-1, section 7.5) |
| `PdfFile.StreamReadsBack` | scripts/generate_links_pdf.js:302-306 | `/Length` delimits exactly the bytes of the stream, whatever they are, non-ASCII text included (ISO 32000-1, section 7.3.8) |
| `PdfPages.FlattenItems` | scripts/generate_links_pdf.js:158-165 | Phases and steps are flattened in order, a header before the steps of its phase |
| `PdfPages.NextItemIsBelow` | scripts/generate_links_pdf.js:167-180 | Within a page the first item stands at 730, and the next one 38 lower after a phase header and 34 lower after a step |
| `Pagination.Paginate` | scripts/generate_links_pdf.js:167-184 | For any item heights between 1 and the room of a page, the loop yields the greedy pages, each item at the height left by the items above it |
| `Pagination.GreedyIsSplit` | scripts/generate_links_pdf.js:167-184 | The pages concatenate to the items in order, and each is non-empty and at most 680 units high |
| `Pagination.GreedyIsOptimal` | scripts/generate_links_pdf.js:167-184 | No split of the items, in order, into pages that fit uses fewer pages, whatever their heights |
| `Pagination.PlacedWithinMargins` | scripts/generate_links_pdf.js:170-180 | Every item is drawn between y = 50 and y = 730 of its page |
| `PdfLinks.BuildObjects` | scripts/generate_links_pdf.js:188-318 | The incremental numbering, with five reserved objects and two filled in at the end, builds the specified object table |
| `PdfLinks.WriteFile` | scripts/generate_links_pdf.js:320-336 | The loop that appends objects and records byte offsets writes exactly the file layout of the object bodies |
| `PdfLinks.BuildPdfBuffer` | scripts/generate_links_pdf.js:151-337 | The whole writer emits the file layout of the object table of the greedy pages of the flattened data |
| `PdfReadBack.PageTreeResolves` | scripts/generate_links_pdf.js:209-318 | The page tree lists one kid per page in order, and each kid names its own content stream and its own link annotations |
| `PdfReadBack.AnnotReadsBack` | scripts/generate_links_pdf.js:288-292 | A link annotation gives back its address, escaped characters included, and a rectangle from 26 below its step to 2 above |
| `PdfFile.RootReadsBack` | scripts/generate_links_pdf.js:335 | The `/Root` number is read back from the trailer behind the cross-reference table |
| `PdfRefs.RefsRead` | scripts/generate_links_pdf.js:308-318 | The reader of reference lists undoes the space-separated `n 0 R` lists of `/Kids` and `/Annots`, the empty list included |
| `PdfDocument.PageDictReads` | scripts/generate_links_pdf.js:308-312 | `/Contents` and `/Annots` are read back from the text of a page, with and without annotations |
| `PdfDocument.FontsReadBack` | scripts/generate_links_pdf.js:202-207 | The three fonts that every page names are Helvetica, Helvetica-Bold and Courier |
| `PdfDocument.DocumentReadsBack` | scripts/generate_links_pdf.js:151-337 | A reader given only the bytes, going from the trailer through catalog, page tree and pages, recovers each page's content stream and links, and all links together are the addresses of all steps in the order of the data, up to line endings, for files with the table below byte 10^10 |
| `PdfReadBack.ContentsReadBack` | scripts/generate_links_pdf.js:302-306 | The content stream of every page, found by its number among the bodies read, is the text drawn |
| `PdfBuilder.SimplePDFBuilder.AddObject` | scripts/generate-platform-walkthrough-pdf.js:17-21 | Appends one object and returns its number |
| `PdfBuilder.SimplePDFBuilder.DrawText` | scripts/generate-platform-walkthrough-pdf.js:52-55 | Appends one operator to the current page, with the text escaped |
| `PdfBuilder.SimplePDFBuilder.BuildObjects` | scripts/generate-platform-walkthrough-pdf.js:64-114 | Turns the pages into the specified object table: catalog, fonts, then contents, links and page object for each page, the page tree overwriting object 2 |
| `PdfBuilder.SimplePDFBuilder.Build` | scripts/generate-platform-walkthrough-pdf.js:64-163 | The bytes returned are the file layout of the built table, so that the same reader recovers them |
| `PdfBuilder.Serialize` | scripts/generate-platform-walkthrough-pdf.js:116-143 | The running byte offsets are where the objects start |
| `PdfBuilder.WriteFile` | scripts/generate-platform-walkthrough-pdf.js:116-162 | Header, objects, table and trailer concatenate to the file layout |
| `PdfBuilder.PagesResolve` | scripts/generate-platform-walkthrough-pdf.js:72-114 | Every kid of the page tree is a page with its own text, length, fonts and links, in order |
| `PdfBuilder.FirstFontIsOverwritten` | scripts/generate-platform-walkthrough-pdf.js:65-114 | The object that `/F1` of every page names is the page tree, not a font; the other three fonts resolve |
| `PdfBuilder.ContentsReadBack` | scripts/generate-platform-walkthrough-pdf.js:72-79 | A content stream that is not empty is delimited exactly by its `/Length` |
| `PdfBuilder.LinkReadsBackIff` | scripts/generate-platform-walkthrough-pdf.js:92-98 | A link address, written unescaped, is read back exactly when its parentheses balance and it holds no backslash and no carriage return |
| `PdfText.UnescapedReadsIff` | scripts/generate-platform-walkthrough-pdf.js:92-98 | The same for any bytes between parentheses, at any nesting depth |
| `PdfBuilderReader.PageDictReads` | scripts/generate-platform-walkthrough-pdf.js:81-102 | Contents, fonts and annotations are read back from the text of a page dictionary, however many there are |
| `PdfBuilderReader.LinkReadsIff` | scripts/generate-platform-walkthrough-pdf.js:92-98 | A reader that passes over the rectangle gets the address of a link object exactly when it needs no escape |
| `PdfBuilderReader.ContentsRead` | scripts/generate-platform-walkthrough-pdf.js:72-79 | The content stream is read back from its object, the empty one, which is not written, included |
| `PdfBuilderReader.LinesReadBack` | scripts/generate-platform-walkthrough-pdf.js:75 | The lines of a content stream are the operators of the page, when none of them holds a line break itself |
| `PdfBuilderReader.FontsReadBack` | scripts/generate-platform-walkthrough-pdf.js:65-70 | Of the four fonts that every page names, objects 3 to 5 are Helvetica-Bold, Courier and Helvetica-Oblique |
| `PdfBuilderReader.DocumentReadsBack` | scripts/generate-platform-walkthrough-pdf.js:64-163 | A reader given only the bytes, going from the trailer through catalog, page tree and pages, recovers each page's content stream and fonts in order, and each link address exactly when it needs no escape, for files with the table below byte 10^10 |
| `SecurityFix.FixSecurity` | backend/scripts/check-swagger-coverage.js:302-367 | The scan that rewrites security blocks produces the specified text and counts the blocks it rewrote |
| `SecurityFix.FixBlock` | backend/scripts/check-swagger-coverage.js:337-362 | One block: the requirement lines consumed, and the reconciled block put in their place |
| `SecurityFix.RewriteFixesBlocks` | backend/scripts/check-swagger-coverage.js:302-367 | For every file, the security blocks of the rewritten text are exactly the reconciled blocks of the original, operation by operation and in order, each with the same lines left below it |
| `SecurityFix.FixPassesIff` | backend/scripts/check-swagger-coverage.js:423-439 | A fixed block can be read and passes the later check exactly when the entries the fixer leaves below it stand at six spaces, are no unexpected primary scheme, and do not follow an emitted `security: []` |
| `SecurityFix.FixEstablishesCheck` | backend/scripts/check-swagger-coverage.js:302-439 | The same for every block of a known operation in a whole file |
| `SecurityFix.CheckPassesIff` | backend/scripts/check-swagger-coverage.js:302-439 | After the fix the file is read and the whole check passes exactly when the fix works on every block of a known operation and the other blocks could be read before |
| `SecurityFix.NestedWitness` | backend/scripts/check-swagger-coverage.js:302-439 | The layout of `docs/swagger.yaml`, with entries at eight spaces: a file that passes the check before the fix, where its scheme is the expected one, and cannot be read after the fix |
| `SecurityFix.RewriteKeepsTheRest` | backend/scripts/check-swagger-coverage.js:317-337 | Apart from the security blocks of known operations every line is kept, in order |
| `SecurityFix.SecondRunDropsStrays` | backend/scripts/check-swagger-coverage.js:302-367 | A second run gives what one run gives of the file without the stray requirement lines that the first run opened a block over: exactly those lines go |
| `SecurityFix.StraysAreCounted` | backend/scripts/check-swagger-coverage.js:302-367 | Leaving out those lines shortens the file by their number, and leaves a file without them as it is |
| `SecurityFix.StrayWitness` | backend/scripts/check-swagger-coverage.js:302-439 | A file on which the second run differs from the first and the check, block by block, fails after the fix: requirement lines below `security: []` in the text of a path description |
| `SecurityFix.IdempotentIff` | backend/scripts/check-swagger-coverage.js:302-367 | The rewrite is idempotent exactly when there is no such stray line |
| `SecurityFix.ThirdRunChangesNothing` | backend/scripts/check-swagger-coverage.js:302-367 | From the second run on nothing changes, whatever the file |
| `SwaggerLines.ShapesAreDisjoint` | backend/scripts/check-swagger-coverage.js:313-340 | No line is at once a path, a method, a security line or a requirement line |
| `SwaggerKeys.PathOfIff` | backend/scripts/check-swagger-coverage.js:316 | A line is a path line of a route exactly when it is two spaces, the route, which starts with a slash and holds no line terminator, and a colon |
| `SwaggerKeys.VerbOfIff` | backend/scripts/check-swagger-coverage.js:321 | And a method line exactly for the five methods, at four spaces |
| `SwaggerKeys.RequirementOfIff` | backend/scripts/check-swagger-coverage.js:340-342 | And a requirement line of a scheme exactly when it is the dash at six spaces, a name of letters, digits and underscores, and an empty list |
| `SwaggerKeys.ParameterLosesName` | backend/scripts/check-swagger-coverage.js:125-127 | Normalising a route replaces the name between a pair of braces by nothing and goes on behind it |
| `SwaggerKeys.SameKeyIff` | backend/scripts/check-swagger-coverage.js:125-127 | Two operations have one key exactly when their methods agree and their routes agree up to the names of the parameters |
| `SwaggerKeys.OperationOfLine` | backend/scripts/check-swagger-coverage.js:313-330 | A line below a path and a method line, with no other of either kind in between, belongs to that method and the normalised route |
| `SwaggerKeys.NoOperationYet` | backend/scripts/check-swagger-coverage.js:316-322 | Directly below a path line the method of the path before is forgotten |
| `SwaggerKeys.SecurityLineIsBlock` | backend/scripts/check-swagger-coverage.js:323-337 | Every security line opens a block of the operation it stands in |
| `SwaggerKeys.EmittedBlock` | backend/scripts/check-swagger-coverage.js:350-359 | A reconciled block lists the expected schemes in one fixed order, or else the other schemes it had, or else says `security: []` |
| `TenantHeaderFix.FindOperations` | backend/scripts/check-swagger-coverage.js:369-393 | The scan finds the block of every operation that needs the header and lacks it, and no other |
| `SwaggerKeys.OperationOfMethodLine` | backend/scripts/check-swagger-coverage.js:369-381 | A method line starts the block of the operation with that method and the normalised route of the last path line |
| `SwaggerKeys.OtherLines` | backend/scripts/check-swagger-coverage.js:384-391 | Of the other lines exactly path lines and `components:` end a block |
| `SwaggerKeys.SelectedOperation` | backend/scripts/check-swagger-coverage.js:381-383 | An operation is changed exactly when it reads the header and does not document it |
| `TenantHeaderFix.Splice` | backend/scripts/check-swagger-coverage.js:395-414 | One splice puts the reference below the first parameters line inside the block, or opens a parameter list at its top |
| `TenantHeaderFix.FixTenantHeaders` | backend/scripts/check-swagger-coverage.js:369-421 | The whole command computes the specified text and the number of operations selected |
| `TenantHeaderFix.SplicesFix` | backend/scripts/check-swagger-coverage.js:395-414 | Splicing by old line numbers from the last block to the first equals fixing every block on its own |
| `TenantHeaderTheorems.FixStaysInBlocks` | backend/scripts/check-swagger-coverage.js:369-414 | Read again, the fixed file has the same operations and blocks in the same order; only the selected blocks differ |
| `TenantHeaderTheorems.OneReferenceIsGained` | backend/scripts/check-swagger-coverage.js:395-414 | A fixed block gains exactly one reference, directly below its first parameters line, which is added only where there was none |
| `TenantHeaderTheorems.FixOnlyInserts` | backend/scripts/check-swagger-coverage.js:395-414 | Leaving out the inserted lines gives back the original file |
| `TenantHeaderTheorems.SecondRunSelectsNothing` | backend/scripts/check-swagger-coverage.js:369-450 | Once any reader has found the inserted references in the fixed file, no operation in it needs one |
| `TenantHeaderLayout.FixedIsReadableIff` | backend/scripts/check-swagger-coverage.js:395-414 | A block that could be read can still be read after the fix exactly when it has no parameter list, or one opened by the bare `parameters:` whose entries stand at six spaces |
| `TenantHeaderLayout.FixedFileReadableIff` | backend/scripts/check-swagger-coverage.js:395-414 | The fixed file can be read exactly when that holds of every block the fix selects |
| `TenantHeaderLayout.SecondRunFindsNothing` | backend/scripts/check-swagger-coverage.js:369-450 | Then the next run reads the file, the check passes and a second fix changes nothing |
| `TenantHeaderLayout.NestedListWitness` | backend/scripts/check-swagger-coverage.js:395-414 | A parameter list with deeper entries, as all those of `docs/swagger.yaml`, is readable before the fix and unreadable after it |
| `TenantHeaderLayout.RepositoryListWitness` | backend/scripts/check-swagger-coverage.js:395-414 | The same for an entry line of `docs/swagger.yaml` as it stands there |
| `TenantHeaderLayout.EmptyListWitness` | backend/scripts/check-swagger-coverage.js:395-414 | An operation with `parameters: []` gets a second `parameters` key, which a YAML reader rejects |
| `LoadTest.Counters.Send` | backend/scripts/load-test-ingestion.ts:144-208 | Starting a request: in flight and peak go up first, then the request is counted under the next number |
| `LoadTest.Counters.End` | backend/scripts/load-test-ingestion.ts:164-178 | The end of a response: one latency, one status, accepted for 200, 201 and 202, one fewer in flight |
| `LoadTest.Counters.Error` | backend/scripts/load-test-ingestion.ts:181-186 | A transport error: one more of its code, one fewer in flight |
| `LoadTest.Counters.Offer` | backend/scripts/load-test-ingestion.ts:200-214 | The pacing loop offers exactly `rate` requests per tick whatever comes back between ticks |
| `LoadTest.Conservation` | backend/scripts/load-test-ingestion.ts:116-186 | Over every interleaving, requests sent equal those in flight plus latencies recorded plus errors |
| `LoadTest.TallyIsExact` | backend/scripts/load-test-ingestion.ts:171-183 | The status and error maps hold exactly the keys that occurred, each with its number of occurrences, and their values sum to the number of events |
| `LoadTest.ReportAddsUp` | backend/scripts/load-test-ingestion.ts:255-290 | The printed numbers add up: counts by status to the replies, by code to the errors, and accepted is the count of 200, 201 and 202 |
| `LoadTest.PeakIsMaximum` | backend/scripts/load-test-ingestion.ts:145-146 | The peak is the largest number in flight after any event so far, and is reached |
| `LoadTest.SettledIsZeroIff` | backend/scripts/load-test-ingestion.ts:175-217 | When every request has settled, nothing is counted as in flight exactly when no request settled twice |
| `LoadTest.SettledTwiceWitness` | backend/scripts/load-test-ingestion.ts:175-186 | One request that is answered and then fails leaves the counter at -1 although no request is open |
| `LoadTest.InFlightIsOpen` | backend/scripts/load-test-ingestion.ts:145-184 | While no request settles twice, the number in flight is the number of open requests |
| `LoadTestReport.PercentileIsNearestRank` | backend/scripts/load-test-ingestion.ts:70-77 | For sorted samples and 0 < p <= 100, the result is a sample with at least p percent at most it and fewer than p percent below it, and zero if there are no samples |
| `LoadTestReport.NearestRankIsUnique` | backend/scripts/load-test-ingestion.ts:70-77 | Those two bounds determine the value |
| `LoadTestReport.PercentileAtTheEnds` | backend/scripts/load-test-ingestion.ts:70-77 | From zero down it is the smallest sample, from one hundred up the largest |
| `LoadTestReport.PercentileIsMonotone` | backend/scripts/load-test-ingestion.ts:70-77 | A higher percentile is never smaller, and none exceeds the maximum |
| `LoadTestReport.Drain` | backend/scripts/load-test-ingestion.ts:224-244 | The wait ends at the first reading that reaches the target, passes the time limit or stalls; the three exits are told apart and the number of polls is bounded |
| `LoadTestReport.StalledIff` | backend/scripts/load-test-ingestion.ts:235-243 | The stall exit fires exactly when the last eleven readings agree |
| `LoadTestReport.StallFallsShort` | backend/scripts/load-test-ingestion.ts:235-243 | A stall is never reported for a backlog that has drained, and is reported at the first opportunity |
| `DirectoryDigest.Digest.Traverse` | backend/scripts/generate-release-sbom.ts:45-64 | The recursive loop adds exactly the specified counts and bytes of the directory |
| `DirectoryDigest.ComputeDirectoryDigest` | backend/scripts/generate-release-sbom.ts:38-71 | A missing directory has no files, no bytes and the digest of 64 zeros, any other the totals and the hashed stream of its traversal |
| `DirectoryDigest.TotalsAreExact` | backend/scripts/generate-release-sbom.ts:45-64 | The totals are the number and the summed length of the files not below a skipped directory, in whatever order they are listed |
| `DirectoryDigest.SortAscends` | backend/scripts/generate-release-sbom.ts:47 | The entries are visited in ascending order of the comparison, each as often as it is listed |
| `DirectoryDigest.TraversedIsDeterministic` | backend/scripts/generate-release-sbom.ts:45-64 | Under a comparison without ties, totals and hashed stream depend on the tree alone, not on the listing order at any level |
| `DirectoryDigest.DeterministicIff` | backend/scripts/generate-release-sbom.ts:47 | The result is independent of the listing order for every tree exactly when no two names tie |
| `DigestStream.TraversedIsFlat` | backend/scripts/generate-release-sbom.ts:45-64 | What the recursion counts and hashes is a flat list of files: their number, their summed length, and names and contents run together |
| `DigestStream.SameStreamIff` | backend/scripts/generate-release-sbom.ts:45-64 | Two directories have one hashed stream exactly when their names and contents, run together, are the same bytes |
| `DigestStream.StreamDecidesContents` | backend/scripts/generate-release-sbom.ts:45-64 | Among directories with the same names and content lengths in hashing order, the stream is the same exactly when all contents are |
| `DigestStream.OneFileEachIff` | backend/scripts/generate-release-sbom.ts:45-64 | Two directories of one file each share a stream exactly when encoded name plus content are the same bytes |
| `DigestStream.BoundaryWitness` | backend/scripts/generate-release-sbom.ts:59-60 | A file `a` that holds `bc` and a file `ab` that holds `c` are hashed alike |
| `DigestStream.DirectoryNamesAreNotHashed` | backend/scripts/generate-release-sbom.ts:51-54 | Renaming a directory, to or from anything but a skipped name, changes neither totals nor stream |

## Left out

- SQL text: policy expressions and statements are syntax trees; quoting, `literal` and operator precedence are not modelled.
- PostgreSQL beyond the policies: foreign keys and triggers that bypass row security, unique-key conflicts that reveal a hidden row, views, column privileges, superusers and BYPASSRLS logins. Cyclic policies, which PostgreSQL rejects when they are used, are excluded by the rank.
- Policies that others create: the isolation results after a commit assume that a managed table carries no permissive policy outside the `shield_` prefix, and that the parent relation of the policy data is acyclic.
- The policy data of `backend/prisma/access/access-policy.js` is a parameter, and so are the schema list and the login users.
- Types: which types compare with `=`, pass as text or accept a quoted state is a parameter of the database state (`Types`), so extensions and user-defined operators are covered but no concrete type is. Objects of the names the script creates are taken to have the script's own shape when they are there already, and the user who runs it to own what it changes.
- RevokeAll: privileges have no grantor and no grant option here. In PostgreSQL a REVOKE leaves what a third role granted, and fails on what a service role has passed on.
- GrantsAreExact: for the same reason, about privileges that the object owner granted. It is about grants to the role itself; what reaches it through PUBLIC or other roles is in `AccessGuarantees.EffectiveIff`.
- RunInTransaction: for the same reason, a service role that has passed a privilege on is not among the causes of failure; nor are names beyond 63 bytes, which PostgreSQL truncates.
- Apply: the condition for success is that of `RunInTransaction`, with the same gaps.
- AccountVisibleIff: takes the binding rows as given. The policy data leaves the binding table to the default kind `tenant`, so every session may write binding rows of its own tenant, for any account (`AccountBindings.BindingBelongsToItsTenant`); who should bind a tenant to which account is decided outside these scripts.
- NoTruncate: about grants to the role itself; `AccessGuarantees.TruncateComesFromOutside` covers the rest.
- Partition details. The order in which roles, schemas and tables are visited is left open in the class `PgClient`, because the results do not depend on it.
- The tenant-scoped connection pool (`backend/libs/database/src/tenant-scoped-pool.ts`), which sets the session variables that the model takes as given.
- SHA-256 and hexadecimal encoding: digests are byte strings of one length, and the final comparison ignores letter case in the code only.
- GetProof: takes natural numbers; negative and fractional indices are not modelled.
- Drawing operators, colours and number formatting in both PDF writers: what is drawn is a parameter. Texts are sequences of Unicode characters, so lone surrogates do not occur.
- ContentsReadBack: the one of `PdfBuilder` excludes the empty content stream, which `SimplePDFBuilder` does not write at all (line 135); `PdfBuilderReader.ContentsRead` includes it.
- DocumentReadsBack: the one of `PdfBuilderReader` is about rectangles without a closing bracket, as four formatted numbers are.
- RunIsInvisible: covers writes to `tenant` and `tenant_or_shared` tables; writes to account bindings, groups and parent rows are meant to change what others may see.
- Parsing of TypeScript decorators and of YAML: the expected schemes and headers, and the operations that document the header before the first run, are inputs. Of YAML, only what decides whether the value of `security` and the parameter list of an operation can be read is modelled: keys, list entries, their indentation, blank lines and comments.
- Documents: entries of any shape but `- Name: []` (scopes, quoted names, several schemes in one requirement, aliases) make a security value count as not readable.
- Only the last block of a repeated operation key would be seen by a YAML reader; the OpenAPI results are stated block by block instead.
- File access, HTTP, HMAC signatures and console output of all scripts; clocks are given as readings, of which the drain loop only assumes that a wait of two seconds takes at least that long; latencies and percentages are exact rationals.
- Built-in sorting is a stable insertion sort on values; symbolic links and other directory entries that are neither files nor directories are passed over, as in the code.
- Scripts that only print constant results, seed data or probe services.
