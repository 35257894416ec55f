# Personal data visibility, sharing and paging: a verified model

A Dafny model of the parts of the workspace backend that decide who may see and change what,
and of the operator commands that repair it, with proofs of what each of them promises over
whole runs. `dafny verify dfyconfig.toml` checks everything.

## What is modelled

The database is a value (`Records.Db`: rows of every table, grants, the backfill log) or a
class holding it (`Store.Database`). A statement is a comprehension over those maps, a
transaction an atomic step or, where the interleaving matters, a sequence of lock, check and
commit steps. Ids, users and times are natural numbers; ids of one table are ordered like the
keys they stand for.

| part | files |
|---|---|
| Backfill of owner and visibility: rules, batches, retries, whole runs | `Rules`, `Personal`, `Agreement`, `Outcomes`, `Moves`, `Process`, `Store`, `BackfillRun`, `Settled`, `BackfillTheorems` |
| Restore of a run: verdicts, pages, inverse, compare-and-set | `Restore`, `RestoreRun`, `RestoreTheorems`, `Rollback` |
| Authorization in three forms, grants, previews, transfers | `Sharing`, `Grants`, `InertGrants` |
| Membership lock, role change and removal against writers | `MembershipLock` |
| Mutation rate limiter and client address | `RateLimiter`, `ForwardedFor` |
| Shared-activity paging | `ActivityFeed` |
| Idempotency keys | `Idempotency` |
| Signed cursors and search paging | `Base64`, `Cursor`, `SearchPaging` |
| Connector remediation, dry and real | `Remediation`, `RemediationRun` |
| Ids in order, pages of a keyset walk | `Ordering` |
| Concrete inputs for the exceptions below | `Examples` |

The backfill is proved in three layers. `Process.ProcessRows` says what processing a *set* of
rows does. `BackfillRun` holds the loops, cursors, retries and reports of the command and ties
them to it; that works because batches commute (`Process.Compose`). `Settled`, `Agreement`,
`BackfillTheorems` and `RestoreTheorems` then prove what the result means, `Personal` and
`Outcomes` on the tables' own columns. Restore is built the
same way on `Restore.RestoreRows`.

## Where the code does not do what one would claim

Each of these is proved with the exact condition under which the claim holds, and `Examples`
holds an input for which it does not.

- Two live grants of one action on one row make `authorize` raise instead of allow
  (`Sharing.FormsAgree`; `Examples.OverlapRaises`).
- A null cursor of the shared-activity feed can leave visible events unread: a short batch that
  fills the page ends the walk. A walk gives everything exactly when no more than a page of
  visible events is left where its last page starts (`ActivityFeed.ListSharedActivity`,
  `ActivityFeed.FollowCursors`; `Examples.UnreadEvent`).
- An archived weak match can score below 0, and the cursor decoder rejects such a score, so
  following search cursors breaks off exactly when the last page boundary has one
  (`SearchPaging.ScoreRange`, `SearchPaging.FollowCursors`; `Examples.WeakMatchHasNoCursor`).
- Mirroring overwrites a copying attention item's visibility and leaves the item's own grants,
  so a batch, or a restore page, leaves a grant without effect exactly when a shared item
  copies one of its rows (`InertGrants.EffectiveUnlessDisarmed`; `Examples.CopyLosesEffect`).
- An expired idempotency record is a miss at the load, and its key still cannot be stored
  (`Idempotency.CollidesOnlyWithExpired`, `Idempotency.KeyStaysTaken`;
  `Examples.ExpiredKeyCollides`).
- The remediation dry run predicts outcomes exactly, the revoke column only under a condition
  (`Remediation.RevokePrediction`; `Examples.SecondRevokeHappens`,
  `Examples.UnreadableCredential`).
- Restore's compare-and-set has two exceptions on the owner of derived rows
  (`RestoreTheorems.DerivedPutBackIff`, `RestoreTheorems.DerivedIsCompareAndSet`;
  `Examples.OwnerFixLost`, `Examples.HandBackUndone`).
- Restoring every run newest first does not bring back a row two runs moved, unless the later
  run found it as it was before the earlier one (`Rollback.NewestFirst`;
  `Examples.NewestFirstStops`).
- The preview's gains are exact except for a grantee who owns the row and for grants lying
  dormant; a narrowing grant can also take `write` from its grantee, which no field of the
  preview shows (`Grants.GainsExact`, `Grants.NarrowingTakesFromGrantee`;
  `Examples.OwnerGainsNothing`, `Examples.DormantGrantWakes`, `Examples.NarrowingTakesWrite`).
- A membership change is made on the role its caller had before the lock; the caller is
  entitled to it at the commit exactly when they were when it took the lock
  (`MembershipLock.EntitledIffUnderLock`; `Examples.DemotedCallerCommits`).

## Model

| member | source | states |
|---|---|---|
| Rules.MessageIdRoundTrip | scripts/backfill_personal_visibility.py:736-744 | A message id is read back from the `gmail:detect_action:` form always, and from the `gmail:` form exactly when it is not empty and does not itself begin with `detect_action:`. |
| Rules.LazyHistoryIsFullHistory | scripts/backfill_personal_visibility.py:1084-1131 | Reading the log only for the rows whose decision history can change gives every derived row the decision its whole history gives. |
| Personal.SetOnColumns | backend/ecc/platform/connector_security.py:96-249 | Which rows are personal data or derived from it, table by table on the tables' own columns, as an iff: Gmail connectors and their sync rows, items about email threads, email recommendations and what their execution created, email runs and their steps, Gmail evidence and the aliases from it, and the feedback on those items and recommendations. |
| Personal.SourcesOnColumns | backend/ecc/platform/connector_security.py:195-215 | A recommendation makes a row derived iff it is an email one of the workspace and its execution created the row. |
| Agreement.RefersToRead | scripts/backfill_personal_visibility.py:736-744 | A reference names a message iff it is one of the two forms with that message id, and no other string names any. |
| Agreement.EvidenceOwnerMeaning | scripts/backfill_personal_visibility.py:747-778 | The evidence rule finds an owner iff the reference names a message and its known message and purge rows exist and agree on one; each of its three failure reasons iff its own case holds. |
| Agreement.RecommendationRule | scripts/backfill_personal_visibility.py:892-929 | A recommendation goes unreported iff its owner is its creator and no cited Gmail evidence is known to be somebody else's. |
| Agreement.JudgedAgrees | scripts/backfill_personal_visibility.py:831-875 | Against a reference definition of whose each row is, table by table: a decision's owner is the supported one iff the row is not reported, or reported only as `owner_inactive`. |
| Agreement.ReportedIffDisagrees | scripts/backfill_personal_visibility.py:831-929 | The same over the state a run leaves: every processed row ends with the owner the other tables support, iff the run did not report it (or reported only `owner_inactive`). |
| Agreement.InactiveReported | scripts/backfill_personal_visibility.py:1110-1131 | `owner_inactive` is reported iff the supported owner is not an active member and came by the row through this run or an earlier one. |
| Outcomes.EarlierMeaning | scripts/backfill_personal_visibility.py:1038-1057 | What a decision takes from the log, on the log's rows: another run's row for it, before the given time, with another owner; and, for a private row, one not kept out of the rule. |
| Outcomes.DirectOutcome | scripts/backfill_personal_visibility.py:892-958 | Owner, visibility and report of every row decided by its own columns, its thread, its connector or its run. |
| Outcomes.EvidenceOutcome | scripts/backfill_personal_visibility.py:1237-1264 | Evidence goes, private, to the owner all known rows of its message name, an alias only if that member is active or has it already; otherwise the row stays, with the reason of exactly its case. |
| Outcomes.DerivedOutcome | scripts/backfill_personal_visibility.py:1060-1131 | A task, commitment or risk: each reason iff its case holds, and the owner, from the first recommendation that created it, its confirmer and the earlier runs' log rows. |
| Outcomes.JudgedOnColumns | scripts/backfill_personal_visibility.py:831-875 | The three together: what is decided about any row of the fourteen tables, on columns alone. |
| Settled.AliasesStayWithActive | scripts/backfill_personal_visibility.py:1237-1264 | An alias changes owner only to an active member, never visibility; one that should go to an inactive member is reported and left. |
| Moves.DismissalSurvives | scripts/backfill_personal_visibility.py:1530-1561 | A dismissal in force on a copying attention item is in force after the entity's move iff it was in force and, where the version moved, the item was computed at that version; then the item counts as computed at the new one, and otherwise its marks stay. |
| Moves.ItemFollows | scripts/backfill_personal_visibility.py:1536-1561 | An attention item that copies a moved entity ends with that entity's owner and visibility. |
| Moves.CopiesOnColumns | scripts/backfill_personal_visibility.py:1536-1561 | The items that copy a row are those of its workspace naming it as a task, a commitment or a risk. |
| Moves.ComposeMoves | scripts/backfill_personal_visibility.py:1564-1595 | Two disjoint updates, each with its mirroring, amount to the one update of both sets of rows. |
| Store.Database.UpdateRows | scripts/backfill_personal_visibility.py:1564-1595 | Owner and visibility are set where they differ, bumping `version` on versioned tables only; the ids returned are those that differed; every other row and column stays. |
| Store.Database.End | scripts/backfill_personal_visibility.py:1662-1688 | A transaction commits or leaves the state it began with, as its attempt says, and uses that attempt up. |
| Process.SourceOwnersKept | scripts/backfill_personal_visibility.py:831-835 | The rows whose owner a rule reads (connectors, recommendations, runs) are never re-owned. |
| Process.DecideStable | scripts/backfill_personal_visibility.py:831-875 | A row's decision depends on other rows only through columns no batch changes, and on the log only through other runs' entries. |
| Process.JudgeStable | scripts/backfill_personal_visibility.py:1326-1357 | No batch changes what a later batch decides, revokes or logs for a row outside it. |
| Process.Compose | scripts/backfill_personal_visibility.py:1607-1653 | Two batches over disjoint rows leave rows, grants and log as one batch over both: the result of a run depends on the set of rows, not on batch size or order. |
| BackfillRun.WalkIs | scripts/backfill_personal_visibility.py:492-507 | The walk holds exactly the rows of the personal data set in the given workspaces and fourteen tables. |
| BackfillRun.WalkOnColumns | backend/ecc/platform/connector_security.py:96-249 | The same on the tables' own columns: the walk holds a row iff it is in one of the workspaces and its columns make it personal. |
| BackfillTheorems.WalkVisitsOnce | scripts/backfill_personal_visibility.py:1360-1391 | The walk visits no row twice. |
| BackfillRun.BatchRows | scripts/backfill_personal_visibility.py:1360-1391 | A batch: ascending ids of the set above the cursor, at most `limit`, none left out before the new cursor, and none left at all when there is no new cursor. |
| Ordering.PageMeaning | scripts/backfill_personal_visibility.py:682-691 | A page as read by `id > :after ORDER BY id LIMIT :limit` is the only sequence with these properties. |
| BackfillRun.Changes | scripts/backfill_personal_visibility.py:1286-1323 | The batch's plan and report are those of its rows' decisions, one by one. |
| BackfillRun.LogChanges | scripts/backfill_personal_visibility.py:1452-1493 | One log entry per change with the values and snapshot before it; an existing entry of the run wins. |
| BackfillRun.Apply | scripts/backfill_personal_visibility.py:1407-1434 | Revoking, logging, updating and mirroring in sequence is the one simultaneous change the plan describes. |
| BackfillRun.ProcessBatch | scripts/backfill_personal_visibility.py:1326-1357 | A writing batch leaves the processed state, a dry one changes nothing; both give the same report and cursor. |
| BackfillRun.WriteBatch | scripts/backfill_personal_visibility.py:1662-1720 | Whatever rollbacks the database forces: the batch's effect and report happen once iff one of five attempts commits before one is rolled back for good, and otherwise not at all. |
| BackfillRun.RunTable | scripts/backfill_personal_visibility.py:1607-1653 | The keyset loop over one table ends, having gone through its whole walk or, when a batch gives up, through a prefix. |
| BackfillRun.RunWorkspace | scripts/backfill_personal_visibility.py:1607-1653 | The same over the fourteen tables of a workspace. |
| BackfillRun.RunBackfill | scripts/backfill_personal_visibility.py:1607-1653 | For every batch size: a dry run writes nothing and reports what the real run reports; a real run leaves exactly the processed state of the walk, or of a prefix when it gives up. A command that ends well has gone over exactly the rows of the workspaces whose columns make them personal, and it does end well when no transaction needs more than five attempts. |
| BackfillRun.ReportStable | scripts/backfill_personal_visibility.py:1326-1357 | The report over some rows is the same before and after any other rows are processed. |
| BackfillRun.MergeAssociates | scripts/backfill_personal_visibility.py:1157-1169 | Merging reports is associative: how batches are grouped does not show. |
| BackfillTheorems.ReportCounts | scripts/backfill_personal_visibility.py:1140-1169 | Per table, the report's counts are the number of rows changed and the number of grants revoked. |
| BackfillTheorems.UnresolvedListed | scripts/backfill_personal_visibility.py:1140-1169 | Every row with a reason is listed once with that reason and its grants revoked, and counted; nothing else is listed. |
| BackfillTheorems.GrantsConserved | scripts/backfill_personal_visibility.py:1407-1425 | A grant ends revoked by the run iff it is one of those counted; nothing else about any grant changes. |
| Settled.RowsSettled | scripts/backfill_personal_visibility.py:1286-1323 | A processed row: unchanged when unresolved, otherwise its rule's owner, private except on aliases and feedback; the version moves by one iff the row changed on a versioned table. |
| Settled.GrantsSettled | scripts/backfill_personal_visibility.py:1345-1357 | A processed row keeps no active grant, an alias keeps all of them. |
| Settled.ChangesLogged | scripts/backfill_personal_visibility.py:1452-1493 | A row is logged by the run iff the run changed it or took a grant from it, with its owner, visibility and grant count before. |
| Settled.LoggedEntry | scripts/backfill_personal_visibility.py:1452-1493 | The log row's id, time and snapshot: version, content time, bump, rule flag and the member-written fields of exactly the items that copy the row. |
| Settled.NothingElseLogged | scripts/backfill_personal_visibility.py:1452-1493 | The run logs nothing but rows it processed and keeps every entry that was there. |
| Settled.FollowersAgree | scripts/backfill_personal_visibility.py:932-958 | Sync rows and run steps end private, with the owner of the connector or run they belong to. |
| Settled.DerivedAgrees | scripts/backfill_personal_visibility.py:1060-1081 | An unreported derived row ends private with its source recommendation's owner. |
| Settled.HistoryAfter | scripts/backfill_personal_visibility.py:1038-1057 | After a run, a later run's history of a row is what it was plus that run's own entry. |
| Settled.NothingLeftToDo | scripts/backfill_personal_visibility.py:1060-1131 | A later run finds each processed row as it should be and reports the same reason, although the first run's entries are history to it. |
| Settled.SecondRunChangesNothing | scripts/backfill_personal_visibility.py:1607-1653 | A second run over the same rows leaves rows, grants and log as they are. |
| Settled.ResumeReachesSameRows | scripts/backfill_personal_visibility.py:1648-1653 | A run interrupted anywhere and followed by a complete one leaves every row, and the set of active grants, as an uninterrupted run does. |
| BackfillTheorems.CompleteRun | scripts/backfill_personal_visibility.py:1607-1653 | After a complete run, every row of the personal data set of those workspaces is private with its rule's owner (unless unresolved, an alias or feedback), without active grants (unless an alias), and logged iff changed. |
| Outcomes.CompleteRunOnColumns | scripts/backfill_personal_visibility.py:1607-1653 | The same for a row whose columns make it personal, with the owner, visibility and reason that the other tables' columns and the log say, one version more iff it changed on a versioned table. |
| BackfillTheorems.RunAgain | scripts/backfill_personal_visibility.py:1607-1653 | The command run again walks the same rows, changes nothing, and reports the same rows for the same reasons with nothing changed or revoked. |
| Restore.VerdictStable | scripts/backfill_personal_visibility.py:1826-1894 | Putting some rows back changes no other logged row's verdict. |
| Restore.RestoreComposes | scripts/backfill_personal_visibility.py:1767-1795 | Two restore pages amount to one: neither page size nor the order of log ids shows in the result. |
| RestoreRun.RestoreValues | scripts/backfill_personal_visibility.py:1897-1929 | The values to put back and the refusals reported are those of the rows' verdicts. |
| RestoreRun.RestoreTable | scripts/backfill_personal_visibility.py:1859-1894 | One table of a page: exactly the rows with that verdict are put back, their copying items with them. |
| RestoreRun.RestorePage | scripts/backfill_personal_visibility.py:1826-1856 | A page, table by table, is the simultaneous restore of its rows. |
| RestoreRun.RestorePageRetried | scripts/backfill_personal_visibility.py:1662-1688 | A page happens once or not at all, whatever is rolled back: once iff its tables are known and one of five attempts commits before one is rolled back for good. |
| RestoreRun.RestorePages | scripts/backfill_personal_visibility.py:1741-1764 | The walk over the log ids ends, having gone through every log row of the run unless a page gave up. |
| RestoreRun.RunRestore | scripts/backfill_personal_visibility.py:1741-1764 | The command: an unknown run iff nothing is logged for it, otherwise the restore of all its rows, or of those before the page that gave up, which none does while five attempts get each transaction through. Limited to a workspace: every row of another one, copying items included, is untouched and unreported, and the workspace's rows end and are reported as without the limit. |
| RestoreRun.ScopeLimits | scripts/backfill_personal_visibility.py:1798-1810 | The limit for any set of logged rows, against the unlimited restore of the same rows. |
| RestoreTheorems.ReconstructionExact | scripts/backfill_personal_visibility.py:1812-1823 | What restore takes the backfill to have left does not depend on what the row holds now, nor on anything its rule does not read: for every table but the derived ones it is what the run decided. |
| RestoreTheorems.VerdictAfterRun | scripts/backfill_personal_visibility.py:1932-1960 | Right after the run, a logged row whose previous owner is active is put back, or already as before. |
| RestoreTheorems.RestoreUndoesRun | scripts/backfill_personal_visibility.py:1741-1764 | Inverse: nothing changed in between and previous owners active, the restore refuses nothing and puts owner and visibility of every row in all fourteen tables back, whatever history it reads. |
| RestoreTheorems.RestoreAgain | scripts/backfill_personal_visibility.py:325-326 | Restoring the same rows again writes nothing; rows put back read as restored, refused ones are refused for the same reason. |
| RestoreTheorems.RestoreIsCompareAndSet | scripts/backfill_personal_visibility.py:1932-1960 | Outside the derived tables, in any later state where what the row's own rule reads is the same (rows, threads, messages and memberships may have come, gone or changed): the row is written only while owner, visibility and an item's member fields are exactly what the run left. |
| RestoreTheorems.RestoreWritesIff | scripts/backfill_personal_visibility.py:1897-1960 | In any such state, exactly when: the run moved the row, it still holds that, and its previous owner is active. |
| RestoreTheorems.AbsentVerdict | scripts/backfill_personal_visibility.py:2017-2047 | A logged row is reported deleted iff it is gone, and no longer personal iff its columns no longer make it so. |
| RestoreTheorems.NoSnapshotVerdict | scripts/backfill_personal_visibility.py:1932-2014 | A log row from before the snapshot column never has its item or derived row written; that is the reason reported iff the row still holds what the rule gives. |
| RestoreTheorems.VerdictReasons | scripts/backfill_personal_visibility.py:1932-2014 | Outside the derived tables: the verdict and reason for a row of the run in any later state with the row's reads kept, by what the run found, what it left and what the row holds. |
| RestoreTheorems.DerivedVerdictReasons | scripts/backfill_personal_visibility.py:1932-2014 | The same for tasks, commitments and risks, their source, their confirmer and their copying items' member fields included. |
| RestoreTheorems.DerivedIsCompareAndSet | scripts/backfill_personal_visibility.py:1932-2014 | In any such state, a derived row is written only while visibility, version, `updated_at` and its items' member fields are what the run left, an item created since has none, and its owner too but for two cases, which are spelled out. |
| RestoreTheorems.UneditedIsPutBack | scripts/backfill_personal_visibility.py:1932-2014 | In any such state, for every table: a row the run moved and nobody edited is put back if its previous owner is active, whatever history restore reads. |
| RestoreTheorems.InputsAreReads | scripts/backfill_personal_visibility.py:831-875 | No batch and no restore page changes what a row's rule reads. |
| RestoreTheorems.DerivedPutBackIff | scripts/backfill_personal_visibility.py:1932-1960 | Exactly when a derived row is put back. |
| RestoreTheorems.OwnerFixIsUndone | scripts/backfill_personal_visibility.py:328-334 | The first of the two cases does occur: a row reported `derived_owner_changed` and since given the rule's owner is put back. |
| Sharing.FormsAgree | backend/ecc/platform/authz.py:824-965 | Listed, reported among the effective permissions and not denied by `authorize` are one decision; `authorize` raises iff two live grants of the action overlap, and otherwise allows iff listed. |
| Sharing.NoneIffNothingListed | backend/ecc/platform/authz.py:670-738 | No permissions are reported iff the row is listed for no action. |
| Sharing.ViaMeaning | backend/ecc/platform/authz.py:670-738 | The permissions reported name the rule they came from: ownership, the role on a `workspace` row, or grants on a `shared_explicitly` one. |
| Sharing.ActiveGrantActionsFor | backend/ecc/platform/authz.py:564-610 | The union loop gives exactly the actions some matching live grant names. |
| Sharing.ViewersWriteByGrantOnly | backend/ecc/platform/authz.py:157-162 | A viewer writes to a row only as its owner or through a live grant of `write`. |
| Grants.ActionsMeaning | backend/ecc/platform/authz.py:670-738 | An active member can do to a row of its workspace exactly what ownership, its role on a `workspace` row or a live grant on a `shared_explicitly` one gives. |
| Grants.RowRefusedWhenDue | backend/ecc/platform/authz_grants.py:248-257 | Who may share or transfer which row, each refusal as an iff on the tables: the ten tables no grant may name, a row missing or of another workspace, a caller who neither owns it nor holds an active owner or admin seat, and, under isolation, a row whose columns make it personal and that is no alias. |
| Grants.GrantRefusedWhenDue | backend/ecc/platform/authz_grants.py:260-347 | Creating a grant goes through iff none of these holds, the grantee has an active seat, and a `workspace` row is narrowed on request; each refusal iff its own case comes first. |
| Grants.TransferRefusedWhenDue | backend/ecc/platform/authz_grants.py:753-835 | The same for a transfer and its recipient. |
| Grants.GranterMayUndo | backend/ecc/platform/authz_grants.py:17-26 | Whoever made a grant may revoke it whatever became of their seat; what is left of it is the row's visibility, and a second revoke is refused. |
| Grants.CreateGrant | backend/ecc/platform/authz_grants.py:260-395 | Refused, with nothing changed, for each reason iff its case holds on the tables; otherwise, on the granted row every member can do what ownership, the grants there were or the new one give and nothing else, and on every other row what it could. |
| Grants.RevokeGrant | backend/ecc/platform/authz_grants.py:459-523 | Not found iff missing or of another workspace, already revoked iff revoked; otherwise it goes through iff the caller made the grant, owns its row or has an active owner or admin seat, and a member then loses an action exactly where this grant alone gave it, and keeps everything else. |
| Grants.TransferOwnership | backend/ecc/platform/authz_grants.py:753-875 | Refused, with nothing changed, for each reason iff its case holds on the tables; otherwise the recipient can do everything to the row, everybody else, its former owner included, what their role or a live grant gives, and nothing changes on other rows. |
| Grants.PreviewRefusesAsCreate | backend/ecc/platform/authz_grants.py:552-678 | The preview is refused iff the confirmed grant would be, for the same reason, each iff its case holds on the tables; it shows the row's visibility and asks for confirmation iff the unconfirmed grant would be refused for that. |
| Grants.PreviewExact | backend/ecc/platform/authz_grants.py:153-206 | On a `workspace` row the accounts previewed as losing access are exactly the active members whose permissions the grant ends; a grant created expired ends its grantee's as well. |
| Grants.GainsExact | backend/ecc/platform/authz_grants.py:616-678 | The actions previewed as gained are what the grantee can do afterwards and could not before, apart from an owning grantee and grants lying dormant on a row not yet shared explicitly. |
| Grants.NarrowingTakesFromGrantee | backend/ecc/platform/authz_grants.py:616-678 | Exactly when the narrowing grant takes `write` from its own grantee. |
| InertGrants.BatchKeepsGrantsLive | scripts/backfill_personal_visibility.py:1407-1434 | A backfill batch leaves no active grant on a row that is not `shared_explicitly`. |
| InertGrants.RestoreKeepsGrantsLive | scripts/backfill_personal_visibility.py:1897-1929 | Neither does a restore page. |
| InertGrants.NoGrantIsInert | backend/ecc/platform/authz_grants.py:312-347 | Over every interleaving of grants, revokes, transfers, batches, restore pages and content edits, every active grant sits on a `shared_explicitly` row (copying attention items apart). |
| InertGrants.CopyMakesInert | scripts/backfill_personal_visibility.py:1536-1561 | Mirroring makes an item copying a processed row private, and every unrevoked grant on the item is then without effect. |
| InertGrants.BatchLeavesWithoutEffect | scripts/backfill_personal_visibility.py:1345-1357 | With copying items counted in, a batch leaves a grant without effect iff it is unrevoked and sits on an item copying a row of the batch. |
| InertGrants.RestoreLeavesWithoutEffect | scripts/backfill_personal_visibility.py:1859-1894 | A restore page leaves one without effect iff it is unrevoked and sits on an item copying a row put back to anything but `shared_explicitly`. |
| InertGrants.EffectiveUnlessDisarmed | backend/ecc/platform/authz_grants.py:312-347 | Of all the transactions, exactly those batches and restore pages leave a grant without effect. |
| InertGrants.EffectiveOverRuns | backend/ecc/platform/authz_grants.py:312-347 | Over every interleaving without such a batch or page, every active grant has its effect, copying items included. |
| InertGrants.BatchHolds | backend/ecc/platform/connector_security.py:348-369 | With isolation on, no sequence of grants, revokes, transfers and edits after a batch changes a personal row's owner or visibility or gives it an active grant. |
| MembershipLock.StepKeepsInvariant | backend/ecc/platform/connector_security.py:791-882 | Every step of writers, membership changes, sharing transactions and joins keeps: the lock is exclusive or shared, a checked writer stays authorized, an approved change stays approvable. |
| MembershipLock.CommitsAreAuthorized | backend/ecc/platform/authz.py:784-821 | Over every interleaving, a write commits only while its actor holds the role it was checked with and that role still allows it: for a row, on the row and grants the check read; for one that locked its row first, on the row and grants as they are at the commit. |
| MembershipLock.OwnerRemains | backend/ecc/domains/identity/membership_removal.py:529-539 | Over every interleaving of role changes and removals, a workspace with an active owner keeps one. |
| MembershipLock.OwnersByOwners | backend/ecc/domains/identity/membership_removal.py:596-636 | A commit that makes or unmakes an owner was asked for by somebody whose role was read as owner before the lock; one that sets a role, or is about somebody else, as owner or admin; no other membership changes. |
| MembershipLock.UnhinderedChange | backend/ecc/domains/identity/membership_removal.py:584-716 | While nobody holds its workspace's membership lock, whatever goes on elsewhere, a change is made iff its caller's seat allows asking for it and the target's seat may be changed (an owner's by an owner only, and not the last one's), and it changes that seat's role or ends it, and nothing else. |
| MembershipLock.UnhinderedWrite | backend/ecc/platform/authz.py:784-821 | While nobody holds its locks, a write passes its check iff its actor is active and not a viewer writing, or, for a row, iff the action is among what the actor can do to it and no two grants overlap; a write that locks its row does so first. |
| MembershipLock.EntitledIffUnderLock | backend/ecc/domains/identity/membership_removal.py:505-526 | At its commit the caller of a membership change is entitled to it iff they were when the change took the lock (and did not join anew in between). |
| MembershipLock.GrantTouches | backend/ecc/platform/authz_grants.py:287-365 | Creating a grant changes nothing about rows it did not lock. |
| MembershipLock.RevokeTouches | backend/ecc/platform/authz_grants.py:465-508 | Nor does revoking one. |
| MembershipLock.TransferTouches | backend/ecc/platform/authz_grants.py:796-836 | Nor does a transfer. |
| MembershipLock.BatchTouches | scripts/backfill_personal_visibility.py:1360-1404 | A backfill batch changes only its own rows, the grants on them and the items copying them. |
| RateLimiter.Limiter.Check | backend/ecc/http_security.py:271-299 | The ordered table and the answer after one check, eviction included. |
| RateLimiter.RunTracks | backend/ecc/http_security.py:250-299 | After any history: at most `max_buckets` buckets, in order of last use, each key not crowded out holding the bucket of a limiter that never forgets. |
| RateLimiter.AnswersAsUnbounded | backend/ecc/http_security.py:271-299 | A key that never sees `max_buckets` other keys between two of its checks is answered as by an unbounded fixed-window counter. |
| RateLimiter.TwiceTheLimit | backend/ecc/http_security.py:250-299 | Under a monotone clock such a key gets at most twice its limit through in any interval one window long. |
| RateLimiter.RetryAfterIsExact | backend/ecc/http_security.py:296-299 | The next check of a refused bucket is let through iff it comes at least the announced time later (and the limit is not zero). |
| RateLimiter.CheckOnHits | backend/ecc/http_security.py:271-299 | A limiter answers a hit whose client was not crowded out as a fixed window over that client's own hits: by their number since the one that opened the window, and with what is left of it. |
| RateLimiter.ClientMeaning | backend/ecc/http_security.py:362-374 | Two hits are one client's iff they come from one address with one cookie, an empty one like none. |
| RateLimiter.SharedBucketIff | backend/ecc/http_security.py:362-374 | Two hits share a session bucket iff they are one client's, or a cookieless one's address is spelled like the other's address and session. |
| RateLimiter.Middleware.Handle | backend/ecc/http_security.py:383-403 | A request goes on iff both limiters let it through. Neither bucket crowded out and no digest or spelling shared: iff it is within the limit of the window over its address's hits and of the window over the hits of its address and cookie; otherwise `Retry-After` is the larger of the two waits rounded up to whole seconds, at least 1. |
| RateLimiter.TwicePerAddress | backend/ecc/http_security.py:224-234 | Whatever session cookies it sends, an address gets at most twice the address limit through in any interval one window long. |
| ForwardedFor.ClientCannotChoose | backend/ecc/http_security.py:306-333 | Nothing a client puts in front of `X-Forwarded-For` changes the address resolved, once the trusted proxies appended their hops. |
| ForwardedFor.HopFromTheRight | backend/ecc/http_security.py:306-333 | Of comma-separated hops with any white space around them and blank pieces between, the address resolved is the one as many places from the right as proxies are trusted; none iff there are fewer, or none are trusted. |
| ActivityFeed.WalkBatch | backend/ecc/platform/notifications.py:395-408 | The inner loop walks to the row that fills the page, or to the end, and collects the visible rows on the way; it fails iff a decision on the way raises. |
| ActivityFeed.ListSharedActivity | backend/ecc/platform/notifications.py:379-419 | A page is exactly the visible events of the stretch it walks, in order, at most `limit`; it fails iff a decision in that stretch raises; its cursor is null iff a batch came back shorter than asked for before the page was full, and then nothing visible is left iff no more than a page of it was left at its start. |
| ActivityFeed.FollowCursors | backend/ecc/platform/notifications.py:379-419 | Following the cursors ends; the pages one after the other are the visible events of the stretch walked, which ends where the first short batch does; they are all the visible events iff no more than a page of them is left where the last page starts. |
| ActivityFeed.SharedActivity | backend/ecc/platform/notifications.py:336-432 | The page holds exactly the events of the stretch walked that are about rows the caller could list for reading now; the cursor continues after it, and is null iff a short batch ended it; forbidden iff the caller is not an active member, failed iff a decision in the stretch raises. |
| ActivityFeed.PageOrder | backend/ecc/platform/notifications.py:304-333 | A page is newest first, the greater id first within a moment, and strictly older than its cursor. |
| ActivityFeed.ShownKinds | backend/ecc/platform/notifications.py:276-285 | An event shows iff it is of one of the seven known kinds and the row of that kind's table is not denied. |
| ActivityFeed.ScanBound | backend/ecc/platform/notifications.py:286-287 | A page reads at most twenty times its size, and exactly that much where nothing is visible. |
| Idempotency.StepKeepsInvariant | backend/ecc/platform/idempotency.py:68-72 | Every step of requests sharing keys keeps: one effect per record, a record is its key's latest effect, what a load found stays so under the lock. |
| Idempotency.AtMostOneEffect | backend/ecc/platform/idempotency.py:151-251 | Over every interleaving, between two effects of a key its record was purged; every finished request committed exactly one effect, of its key, or none and replayed the body of an effect of its own key for the same request, met one for another request, or rolled back. |
| Idempotency.ReplayIsFaithful | backend/ecc/platform/idempotency.py:178-205 | A hit answers with the body of the latest effect of that key for the same request, and conflicts iff that effect was for another. |
| Idempotency.AnsweredWhileLive | backend/ecc/platform/idempotency.py:178-205 | A load is answered from its key's record iff that has not expired then; otherwise the request goes on as a miss. |
| Idempotency.UndisturbedRequest | backend/ecc/platform/idempotency.py:151-251 | What a request gets while its lock is free, whatever others are under way: the recorded body, a conflict, a rollback over an expired record, or its own effect and record; and that nothing else changes. |
| Idempotency.EndsRelease | backend/ecc/platform/idempotency.py:68-72 | However a request ends, its end is recorded and its lock released. |
| Idempotency.CollidesOnlyWithExpired | backend/ecc/platform/idempotency.py:208-251 | The plain INSERT fails iff the key's record was there, expired, at the load and was not purged since; never because of a concurrent twin. |
| Idempotency.KeyStaysTaken | backend/ecc/platform/idempotency.py:182-184 | While its record stays, expired or not, a key has no further effect. |
| Base64.DecodeEncode | backend/ecc/platform/cursor_pagination.py:45 | Every byte string is read back from its URL-safe base64 form (section 5 of RFC 4648) by the lenient decoder. |
| Base64.PaddingRestored | backend/ecc/platform/cursor_pagination.py:45-50 | Stripping the padding (section 3.2 of RFC 4648) and re-padding by the length modulo four gives the padded form back. |
| Base64.OthersSkipped | backend/ecc/platform/cursor_pagination.py:48-50 | Characters outside the alphabet make no difference to what is decoded, wherever they stand. |
| Base64.EitherAlphabet | backend/ecc/platform/cursor_pagination.py:48-50 | The decoder reads the standard and the URL-safe digits alike, mixed or not. |
| Base64.PaddedDecodedIff | backend/ecc/platform/cursor_pagination.py:48-50 | Digits without padding are decoded iff their number is not one over a multiple of four. |
| Base64.Vectors | backend/ecc/platform/cursor_pagination.py:45 | Test vectors of section 10 of RFC 4648, and the two digits of its URL-safe alphabet. |
| Cursor.CursorRoundTrip | backend/ecc/platform/cursor_pagination.py:42-59 | Decoding an encoded cursor gives the payload back for every byte string, dots included. |
| Cursor.AcceptedIffSigned | backend/ecc/platform/cursor_pagination.py:48-59 | A cursor is accepted iff it decodes to a payload followed by a dot and that payload's own signature. |
| Cursor.CursorsDiffer | backend/ecc/platform/cursor_pagination.py:42-45 | Different payloads have different cursors. |
| SearchPaging.ScoreRange | backend/ecc/search.py:271-289 | A score is at most 1, and below 0 exactly for an archived weak match, stated on the match's own columns. |
| SearchPaging.TiersOrder | backend/ecc/search.py:271-280 | The kind of match decides before its degree, other things equal, and by how much; what similarity, rank and a body match score at most and at least. |
| SearchPaging.ScoreMonotone | backend/ecc/search.py:281-289 | A younger, pinned or unarchived match never scores less; what pinning and archiving are worth, and where age makes a difference. |
| SearchPaging.RecencyWorth | backend/ecc/search.py:281-286 | What being at most seven, thirty or ninety days old is worth against anything older. |
| SearchPaging.PrecedesIsTotalOrder | backend/ecc/search.py:338-343 | The ORDER BY is a strict total order. |
| SearchPaging.ContinuesIsStrictlyAfter | backend/ecc/search.py:309-337 | The four-way keyset predicate selects exactly what comes strictly after the cursor in that order. |
| SearchPaging.CursorRoundTrip | backend/ecc/search.py:83-117 | A signed cursor is read back iff its score is in [0, 1] (and its type order known). |
| SearchPaging.AcceptedIffSigned | backend/ecc/search.py:83-117 | A cursor is accepted, and read as a hit, iff it decodes to a payload holding that hit, in range, followed by the payload's own signature. |
| SearchPaging.Search | backend/ecc/search.py:344-410 | A page is the first `limit` rows after the cursor; a next cursor iff more follow; invalid iff the cursor given is not read back. |
| SearchPaging.FollowCursors | backend/ecc/search.py:309-410 | Following the cursors gives a prefix of the ranked rows without gap or repeat, and all of them iff the last page boundary needed has a score of at least 0. |
| RemediationRun.Registry.InTransaction | scripts/remediate_connector_ownership.py:665-706 | One target's transaction: its outcome, due on the rows and the evidence, and exactly its writes; dry, the renamed outcome and none. |
| Remediation.DecidedByAct | scripts/remediate_connector_ownership.py:665-706 | Each outcome iff its case holds on the rows and the evidence: a Gmail connector is disconnected for a mismatch (A), a removed owner (E), or a transfer (B) or foreign reconnect (D) with a mismatch; B and D otherwise are recorded for review, once; and what is written. |
| Remediation.DoneOnColumns | scripts/remediate_connector_ownership.py:752-807 | The state after a run on the rows and evidence it began with: which connectors are still live, which reviews there are. |
| Remediation.EachDecided | scripts/remediate_connector_ownership.py:752-807 | Every outcome of a real run is the one due on the state its target meets. |
| Remediation.InOrder | scripts/remediate_connector_ownership.py:763-773 | Declined targets are reported, and the others gone through, in the order given. |
| RemediationRun.Registry.RevokeGrant | backend/ecc/platform/connector_security.py:588-636 | The provider is asked, once, iff the grant is a Gmail one with a readable credential and, under the global scope, the safety check goes through and no other live row uses the account; each answer iff its own case holds. |
| RemediationRun.Registry.Remediate | scripts/remediate_connector_ownership.py:752-807 | The whole command, dry and real: results in order, the state left, the providers asked. |
| Remediation.DoneIs | scripts/remediate_connector_ownership.py:752-807 | What a run leaves depends on which targets it went through, not on their order: the rows disconnected and the reviews recorded. |
| Remediation.DryRunSimulates | scripts/remediate_connector_ownership.py:774-794 | For any list of distinct targets, several checks per row included, the dry run's outcomes are the real run's with `would_` in front. |
| Remediation.RevokePrediction | scripts/remediate_connector_ownership.py:596-605 | For every scope, credential and answer, the dry run's revoke column says what the real run does iff the target disconnects nothing, or its credential is readable and, under the global scope, the safety check goes through and some rival of the account, if there was one, is still connected at its turn. |
| Remediation.RivalsDecide | scripts/remediate_connector_ownership.py:596-605 | The interesting case: the real revoke is skipped iff another live row of the account was not disconnected earlier in the run, the dry run predicts a skip whenever there was one. |
| Remediation.RerunWritesNothing | scripts/remediate_connector_ownership.py:52-53 | An immediate re-run over any of the targets writes nothing and asks no provider. |
| Remediation.CallsAreSafe | backend/ecc/platform/connector_security.py:489-529 | Under the global scope the provider is asked only when no other live row of any workspace uses the account, and none does at the end of the run. |
| Examples.ConnectorRoundTrip | scripts/backfill_personal_visibility.py:1407-1434 | A shared Gmail connector, end to end: private, its grant revoked, logged, and put back by the restore. |
| Examples.OwnerFixLost | scripts/backfill_personal_visibility.py:326-332 | The input: a transferred task reported `derived_owner_changed`, given the rule's owner by hand without touching `version`, loses that fix to the restore. |
| Examples.OverlapRaises | backend/ecc/platform/authz.py:534-561 | The input: two grants of `read` to one account make `authorize` raise on a row the list shows. |
| Examples.UnreadEvent | backend/ecc/platform/notifications.py:409-419 | The input: two visible events, one per page, give a first page with a null cursor. |
| Examples.WeakMatchHasNoCursor | backend/ecc/search.py:106-107 | The input: an archived match by similarity 0.15 scores -0.05, and its cursor is rejected. |
| Examples.ExpiredKeyCollides | backend/ecc/platform/idempotency.py:208-251 | The input: a request whose key has an expired record misses, stores, and is rolled back with no effect. |
| Rollback.RunAndUndo | scripts/backfill_personal_visibility.py:342-347 | The two commands in a row, for any batch and page size: unless a restore page gives up, which none does while five attempts get each transaction through, the restore refuses nothing and every owner and visibility is back, even when the backfill gave up part of the way; the unique log ids it pages over are those the run drew. |
| Rollback.OlderRunNotUndone | scripts/backfill_personal_visibility.py:342-347 | Of two runs that moved a row, once the later one is undone the earlier one's restore does not write the row, whatever came, went or was edited in between and since, apart from what the row's rule reads. |
| Rollback.NewestFirst | scripts/backfill_personal_visibility.py:342-347 | Restoring two runs newest first brings a row both moved back to before the first iff the second run found it so. |
| Rollback.OlderRunUndone | scripts/backfill_personal_visibility.py:342-347 | A row the older run alone moved, edited by nobody: restoring both newest first puts it back, if its owner before is still active. |
| Examples.HandBackUndone | scripts/backfill_personal_visibility.py:1060-1081 | The input: a row an earlier run had processed, re-owned by the run and given back to its confirmer by hand, is made visible again by the restore. |
| Examples.CopyLosesEffect | scripts/backfill_personal_visibility.py:1536-1561 | The input: a workspace entity and its shared attention item; the batch leaves the item private and its grant unrevoked. |
| Examples.DormantGrantWakes | backend/ecc/platform/authz_grants.py:616-678 | The input: that item shared with the same account again, for reading; the preview gains `read`, the account gets `write` as well. |
| Examples.OwnerGainsNothing | backend/ecc/platform/authz_grants.py:616-678 | The input: the owner of a private row as the grantee; the preview gains `read`, nothing changes. |
| Examples.NarrowingTakesWrite | backend/ecc/platform/authz_grants.py:616-678 | The input: a member granted `read` on a workspace row loses `write`, with nothing gained and nobody losing in the preview. |
| Examples.DemotedCallerCommits | backend/ecc/domains/identity/membership_removal.py:584-636 | The input: two owners, one demoted by the other after the role was read, and the demoted one's change about to commit. |
| Examples.SecondRevokeHappens | scripts/remediate_connector_ownership.py:774-794 | The input: two flagged connectors of one account; the second revoke is predicted as skipped and is made. |
| Examples.UnreadableCredential | scripts/remediate_connector_ownership.py:606-618 | The input: a flagged connector with an unreadable credential; the revoke is predicted and cannot be made. |
| Examples.NewestFirstStops | scripts/backfill_personal_visibility.py:342-347 | The input: a workspace connector made private, shared, made private again; restoring both runs newest first leaves it shared. |
| Examples.ItemCreatedSince | scripts/backfill_personal_visibility.py:1980-2014 | The input: an attention item created since the run; the row it copies is put back while the item has no member fields, and refused as changed attention otherwise, whatever threads and messages came since. |

## Left out

- SQL text, planning, isolation levels, statement and lock timeouts, deadlock detection: a backfill batch and a restore page are atomic; the order in which a batch locks grants and rows, and a row leaving the set between the unlocked and the locked read, are not modelled.
- Log ids and times come from a function of the row (`stamps`), the same on every attempt; log ids and row ids of zero are outside every keyset walk, as in the code.
- Text digests (`override_reason`), session digests, HMAC, SHA-256 and JSON are values or uninterpreted functions with only the round-trip and length assumptions stated where used.
- The order of the restore report (the command sorts its CSV) and its counts: `RestoreRun` reports sets of keys and a map of reasons.
- `connector_owner_unknown` and `derived_source_missing` are modelled and unreachable from the row predicates, as the code says.
- Command lines, flag guards, confirmation prompts, CSV output, exit codes and stderr summaries of both scripts; the isolation flag itself is a parameter of the sharing endpoints.
- RestoreTheorems.RestoreIsCompareAndSet: assumes that what the row's own rule looks up in other tables is as it was (`RestoreTheorems.SameReads`); where it is not, restore compares with what the rule says now, as in the code.
- RestoreTheorems.RestoreUndoesRun: speaks of rows, not of grants, which stay revoked as in the code; copying attention items end with their entity's values (`Moves.ItemFollows`), which need not be their own earlier ones.
- Resource types outside the known tables: `Records.Table` stands for the known ones, so only the ungrantable list is checked.
- Notifications, audit and outbox rows of the sharing endpoints and of remediation (apart from the review records), delegations and the evidence grants they create.
- Member removal beyond its lock, its checks and the membership row: the owned-resource block, person-node and alias re-owning, connector disconnection, run cancellation.
- MembershipLock.OwnersByOwners: speaks of the caller's role as read before the exclusive lock, because the code does not read it again under the lock; `MembershipLock.EntitledIffUnderLock` says when it is still right at the commit.
- MembershipLock.CommitsAreAuthorized: a write that did not lock its row before authorizing is held to the row and grants its check read, not to those at the commit, as in the code.
- ActivityFeed.ListSharedActivity: the decisions about the events are those of one moment; the code asks again for every row and every page.
- Remediation.CallsAreSafe: no other process connects a row between the safety check and the revoke, a window the code accepts.
- Locks queueing behind a waiting exclusive request, and lock timeouts: any transaction may roll back at any time.
- `held_idempotency_lock` for critical sections that commit in the middle.
- `MaxBodySizeMiddleware`, security headers, route matching and the raw socket peer.
- Search candidate selection (text matching, filters, visibility fragments), snippets and matched fields; scores are real numbers, so double rounding is not modelled.
- Evaluation rows excluded by the connector audit, its check C and its report columns; the `interrupted` revoke left behind by a stop between commit and revoke.
- Member notifications paging, the other cursor users and field-level cursor validation.
