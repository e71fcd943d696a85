# Verified model of the Genesis gateway's stateful core

This project models, in Dafny, the parts of the gateway where correctness is a matter of whole runs
or of meaning that must survive a transformation, and proves what those parts are for.

* **Audit chain and anchors.** `AuditChain` holds the hash-linked rows of a session, the colon-joined
  payload and the `verify_chain` walk. `AuditAppend` is the append, as one step and as the SQLite path
  runs it. `AuditWriters` lets any number of Postgres writers run that transaction statement by
  statement, interleaved, with crashes anywhere. `Merkle` and `Anchors` are the daily tree and its
  verification.
* **Migration runner.** `Migrations` (reconcile), `MigrationRuns` (one run, and concurrent runs that may
  lose the lock between any two events), `LineEndings` (which checksums stand for the same file).
* **Message translation and the agent loop.** `AnthropicWire` (translation with its pending buffer),
  `AgentLoop` (replies, the history the loop builds, the loop itself).
* **Jobs.** `Jobs` (the store calls as steps over the table and the event log), `JobStore` (the calls as
  they are coded), `Worker` (`process_job` with its exception paths), `WorkerRuns` (workers interleaved
  with each other, with administrators' refunds and with every other caller on one table), `WorkerPool` (the claim loop).
* **Single use and tokens.** `SingleUse` (a store that forgets expired rows), `Base64Url`, `Tokens`,
  `PrincipalTokens`, `ActionGrants`, `Envelopes`.
* **Knowledge rows.** `Knowledge` (filter and the two dictionary-and-order loops, against a declarative
  form), `KnowledgeLaws`.

SHA-256, HMAC, Ed25519 and JSON are functions the model is handed. Collision-freedom is always a
hypothesis about the finite set of texts a claim hashes, never about all texts, which would contradict a
fixed digest length; a codec is assumed to give back what it was given only where that is stated. Code
that changes state is imperative here too: classes and loops, each proved against a function of the
inputs, and the theorems are about that function. Lemmas carry `{:induction false}`: every induction is
written out.

## What the code does not promise

Where a property is not true of the code in general, it is stated with the exact condition.

* The payload text determines a row's fields, among rows of its session, if and only if the action type,
  the tool name and the two bound texts have no colon (`AuditChain.PayloadBindsFieldsIff`), and among all
  rows if and only if the session id has none either (`AuditChain.PayloadBindsRowIff`). For rows the log
  writes, the digests never have one (`AuditAppend.WrittenRowColonFreeIff`); the JSON text of an old row
  has one as soon as it has a member.
* The hash does not bind the version of a row. Any rows of a chain, rewritten in the other version with
  the digests as JSON texts or the other way round, leave the verdict as it was
  (`AuditChain.VersionsKeepVerdict`). Where names have no colon and inputs of old rows show that they are
  JSON objects, one head fixes the versions as well, in chains of old and current rows alike; the two JSON
  texts of an old row are then fixed as they stand joined (`AuditChain.SameHeadSameRecords`).
* `verify_chain` reads the rows of a session and its head in two transactions. Beside writers the verdict
  is true if and only if no row of the session commits in between (`AuditWriters.SplitReadIff`), so
  `verify_anchor` reports an untouched day as tampered exactly when that happens to one of its sessions
  (`Anchors.MatchBesideWritersIff`). `AuditWriters.SplitReadFails` and `Anchors.UntouchedDayTampered` are
  such runs, the latter from an empty log.
* `_broken_sessions` is meant to fail closed. When the SQLite file does not open for the listing of the
  sessions, none is listed, no session counts as broken and the root alone decides, even if no verification
  can run (`Anchors.UnlistedDayMatchesIff`). A match vouches for the rows under its root if and only if
  it cannot occur or each of them is among the rows its session is verified on, and the session was listed
  (`Anchors.MatchVouchesIff`).
* `log` takes its timestamp before its lock, so a row of a day can be committed after the day was anchored.
  A matching day goes on matching if and only if no such row is committed (`Anchors.AppendMatchesIff`,
  `Anchors.RunMatchesIff`).
* `verify_chain` and migration 005 say that a chain without a head is verified as before. The first
  append to such a chain starts the head's count at one, and from then on the chain does not verify
  (`AuditAppend.AppendVerifiesIff`, `AuditAppend.LegacyChainBreaks`). The same equivalence shows that an
  append repairs a head whose last id or hash was wrong, as long as its count is right.
* Equal Merkle roots do not mean equally many leaves: an odd level and the same level with its last node
  repeated have one root (`Merkle.OddTailRepeats`). Over distinct leaves that are no nodes they do
  (`Merkle.RootBindsDistinctLeaves`), and the leaves of a day with intact chains are such
  (`Anchors.MatchKeepsHashes`).
* `to_anthropic_messages` is called idempotent without condition; it is so if and only if every tool turn
  leaves at least one block (`AnthropicWire.IdempotentIff`).
* The lock check of the runner is made before each file, not with it. A runner whose lock is lost after the
  check still commits that one file, and no more (`MigrationRuns.LostLockOneMore`); it fails at its next
  check (`MigrationRuns.LostLockCommitsNothing`). Without a lost lock runners take turns
  (`MigrationRuns.RunnersTakeTurns`).
* Tolerance of line endings accepts one edit: a CRLF file whose lines each gained a stray CR
  (`LineEndings.RecordedCrlfAccepted`, `LineEndings.StrayCrAccepted`).
* The event of a child job is written even if the row insert is skipped, so event logs are paths if and
  only if child ids are new (`Jobs.LogsArePathsIff`).
* `verify_ap2_envelope` reads the clock twice, once for the skew check and once for the sweep of old
  nonces. Exactly the clocks on which no sweep runs ahead of both presentations keep every message
  single-use (`SingleUse.SingleUseIff`), and so do they every key, nonce and timestamp of an envelope, with a
  window of 600 seconds (`Envelopes.EnvelopesSingleUseIff`). For a wall clock that means that both readings
  of a call fall in the same second, except for the first call and for calls that come later than a lifetime
  after the one before (`SingleUse.WallClockSafeIff`). Nonces are kept by client id and the registry is read
  anew by every call, so a repetition is also accepted when the key has passed to another client id in
  between (`Envelopes.RepeatedForAnotherClient`, `Envelopes.RepeatedAtOnceIff`).
* `consume_action_grant` reads the clock once, before its transaction, and concurrent calls reach the
  store in any order. Grants are single-use if and only if no call is served between two others, with
  readings within 360 seconds of each other, on a later reading than both (`ActionGrants.GrantsSingleUseIff`,
  `SingleUse.OneReadingSafeIff`); `ActionGrants.ReplayExample` is a grant honoured twice. On readings in
  the order of service they always are (`ActionGrants.GrantsAreSingleUse`).
* An administrator's refund releases the escrow of a job without a look at its webhook or at earlier
  payments. Workers pay at most once; at any moment of any run a call pays for a job that was paid for if and
  only if it is such a refund, or the worker's payment after one (`WorkerRuns.FurtherPaymentIff`,
  `WorkerRuns.SettledThenRefunded`).
* A heartbeat that raises ends `process_job` by an exception and takes the callback with it, even where the
  status was written and the payment made (`Worker.LeftByExceptionIff`, `Worker.CallbackIff`).
* A worker pays without looking at whether its status update was refused. A job that was reaped while
  its worker was still at it is settled although it stays EXPIRED
  (`WorkerRuns.PaymentMatchesRecordIff`, `WorkerRuns.ExpiredJobIsSettled`).
* An update without override moves a job if and only if its status is not terminal and not the new one
  (`Jobs.UpdateChangesIff`). `DELIVERED_WITH_ARTIFACT_WARNING` is not among the terminal statuses: of the
  two kinds of delivery only `DELIVERED` is protected, and the other can be failed or requeued
  (`Jobs.DeliveryProtectedIff`).

## Model

| member | source | states |
|---|---|---|
| `AuditChain.PayloadBindsFields` | audit.py:157-162 | equal payload texts bind equal fields, read from both ends around a session id that may contain colons |
| `AuditChain.PayloadBindsFieldsIff` | audit.py:140-162 | among rows of a session the payload determines all nine fields if and only if the row's free texts have no colon |
| `AuditChain.PayloadBindsRowIff` | audit.py:140-162 | among the rows of all sessions it does if and only if the session id has no colon either |
| `AuditChain.ShiftedSession` | audit.py:157-161 | a row whose session id has a colon shares its payload with a row of another session |
| `AuditChain.Shifted` | audit.py:157-161 | a row with a colon in a free text shares its payload with a different row |
| `AuditChain.ColonFreeSpreads` | audit.py:157-161 | colons are counted, so one colon-free row makes every row with its payload colon-free |
| `AuditChain.AbsentDigestPrints` | audit.py:157-161 | an absent outputs digest prints as a word that is neither empty nor a digest |
| `AuditChain.VerifyRows` | audit.py:598-660 | the walk returns true exactly when every row links and hashes and the head, if any, counts the rows and names the last one; v1 and v2 rows each by their formula |
| `AuditChain.ChainsAgreeBackwards` | audit.py:629-658 | two linked chains ending in the same hash agree at every position, going back along prev_hash |
| `AuditChain.SameHeadSameHistory` | audit.py:607-660 | two chains that verify against one head have equally many rows and agree row by row on hash and bound fields |
| `AuditChain.RedactionKeepsVerdict` | audit.py:639-658 | rewriting inputs_json, outputs_json or error of v2 rows never changes the verdict, either way |
| `AuditChain.VersionsKeepVerdict` | audit.py:641-654 | rewriting rows in the other version, digests as JSON texts or JSON texts as digests, never changes the verdict, either way |
| `AuditChain.SameHeadSameVersions` | audit.py:641-654 | if inputs of v1 rows start with a brace and digests do not, and one chain is colon-free and so in effect of v2 rows, two chains that verify against one head have the same versions row by row |
| `AuditChain.SameHeadSameRecords` | audit.py:607-660 | chains of v1 rows, v2 rows or both whose names are colon-free and whose texts show their versions: under one head every row has the same version, id, names, cost, timestamp, link and hash, and the same two texts as they stand joined |
| `AuditChain.PayloadFromLeft` | audit.py:157-161 | read from the left, a payload gives all fields but the last two, whatever these contain |
| `AuditAppend.AppendRows` | audit.py:413-454 | an append adds exactly one linked, hashed row at the end of its own session and leaves every other session's rows alone |
| `AuditAppend.AppendedRow` | audit.py:387-432 | the appended row holds every field of the entry, the digest of each text (empty for an empty one), the link and the hash |
| `AuditAppend.AppendedHead` | audit.py:434-449 | the head of the session counts one more and names the new row, and no other head changes |
| `AuditAppend.HashBindsEntry` | audit.py:133-168 | two written rows with one hash are of equal entries, inputs and outputs included and the error text not, under one id and after the same row, if the names of one have no colon and nothing hashed collides |
| `AuditAppend.AppendVerifiesIff` | audit.py:434-449 | after an append the session verifies if and only if its rows were linked and the head (zero when absent) counted them |
| `AuditAppend.LegacyChainBreaks` | audit.py:600-610 | a non-empty session without a head stops verifying at its first append |
| `AuditAppend.AppendKeepsTracked` | audit.py:439-449 | an append keeps every head-tracked, verifying session so, whichever session it is for |
| `AuditAppend.WrittenRowColonFreeIff` | audit.py:396-399 | a row the log writes is colon-free in its bound texts exactly when action type and tool name are |
| `AuditAppend.StatementsMakeAppend` | audit.py:416-449 | placeholder insert, hash update and head upsert together are the append |
| `AuditAppend.AuditLog.constructor` | audit.py:186-255 | a new log has no rows and no heads |
| `AuditAppend.AuditLog.Log` | audit.py:413-454 | success is one append under the next id; if any of the five statements raises, tables and id sequence are as before |
| `AuditAppend.AuditLog.VerifyChain` | audit.py:563-660 | the verdict on the stored rows and head of a session |
| `AuditWriters.CommitIsAppend` | audit.py:290-331 | whatever interleaved since a writer took the lock, its commit is exactly one append with a fresh id |
| `AuditWriters.LocksSeparate` | audit.py:291-291 | two open transactions are never on the same session, even if lock keys of different sessions coincide |
| `AuditWriters.StepKeepsInv` | audit.py:290-331 | every event (lock, read, insert, hash, head, commit, abort) keeps: what an open transaction has read is still true of the committed tables |
| `AuditWriters.EveryCommittedChainVerifies` | audit.py:290-331 | in every interleaving of any number of writers, with rollbacks and crashes anywhere, every committed state verifies for every session tracked at the start |
| `AuditWriters.InterleavingIsSequential` | audit.py:275-289 | the committed tables of any run equal those of its committed appends performed one after another |
| `AuditWriters.AbortRollsBack` | audit.py:284-290 | a rollback at any point leaves the tables as they were, ends the transaction and frees its lock and no other |
| `AuditWriters.BeginningRollsBack` | audit.py:284-331 | every beginning of a transaction, rolled back, leaves tables, transactions and locks as before and commits nothing |
| `AuditWriters.LockWaits` | audit.py:291-291 | while a transaction is open no other gets its lock |
| `AuditWriters.LockAfterEnd` | audit.py:284-291 | after its rollback or commit the next one who asks gets the lock at once |
| `AuditWriters.CommitHasItsStatements` | audit.py:290-331 | in every run whatever changes the tables is the commit of a transaction that has run all its statements in order since its lock and was not rolled back since; the change is one append of the entry it was begun with |
| `AuditWriters.SplitReadIff` | audit.py:333-358 | rows read before the head: the verdict on a tracked session is true exactly when no row of it commits between the two reads |
| `AuditWriters.WholeAppends` | audit.py:290-331 | one undisturbed transaction, statement by statement, is one append with the next id |
| `AuditWriters.SplitReadFails` | audit.py:333-358 | a run in which it is false: one whole append between the two reads, with the session verifying before and after |
| `Merkle.HashLevel` | anchor_logger.py:87-92 | the inner loop builds the level above, an odd last node paired with itself |
| `Merkle.BuildMerkleTree` | anchor_logger.py:62-96 | terminates with the root, the leaves and all levels, ceil(log2 n) + 1 of them; the empty day has a fixed root |
| `Merkle.CeilLog2Bounds` | anchor_logger.py:86-94 | the level count is the true ceiling of the binary logarithm |
| `Merkle.LevelCount` | anchor_logger.py:86-94 | each level has half as many nodes as the one below, rounded up, down to one |
| `Merkle.NodeOfNextLevel` | anchor_logger.py:86-94 | hashing one level and then reading top-down gives the same node |
| `Merkle.RootIsTopDown` | anchor_logger.py:83-96 | the bottom-up root is the top-down recursion that splits at a power of two and copies the left half where the right is missing |
| `Merkle.RootBindsLeaves` | anchor_logger.py:86-96 | equal roots over equally many leaves of digest width mean equal leaves, if no hashed pair of the two trees collides |
| `Merkle.RootBindsDistinctLeaves` | anchor_logger.py:79-96 | equal roots over lists of distinct leaves of any lengths, empty included, mean equal lists, if no leaf of one is a node over the other and nothing hashed collides |
| `Merkle.NotLower` | anchor_logger.py:86-96 | trees with one root have one height when no leaf of one is a node of the other |
| `Merkle.OddTailRepeats` | anchor_logger.py:90-90 | without that, roots do not tell the lengths: repeating the last node of an odd level keeps the root |
| `Anchors.AnchorLogger.constructor` | anchor_logger.py:311-350 | no anchors at first |
| `Anchors.AnchorLogger.ComputeDailyAnchor` | anchor_logger.py:218-309 | root and leaves of the day's rows in append order, as many actions as rows and as many sessions as different session ids; an unreadable store gives an error and never an empty day |
| `Anchors.AnchorLogger.RecordAnchor` | anchor_logger.py:311-350 | the anchor is appended, nothing recorded before is touched |
| `Anchors.AnchorLogger.GetAnchor` | anchor_logger.py:364-413 | the first anchor recorded for the date |
| `Anchors.AnchorLogger.ListSessions` | anchor_logger.py:415-432 | the day's sessions, each once, in chain order |
| `Anchors.AnchorLogger.BrokenSessions` | anchor_logger.py:434-464 | the sessions listed that do not verify, each on its rows and head as read for it, or cannot be verified, in chain order; all that are listed if the log does not open, which are none if the file does not open for the listing either |
| `Anchors.AnchorLogger.VerifyAnchor` | anchor_logger.py:415-532 | the whole report from separate reads of the day, of its sessions and of their rows and heads, with no sessions when the file does not open for the listing and an error when a query raises; it is a match exactly when the day as read matches its first anchor and every session listed verified |
| `Anchors.NoneBroken` | anchor_logger.py:456-464 | no session is reported broken if and only if every row of the day listed belongs to a session that verifies |
| `Anchors.MatchVouchesIff` | anchor_logger.py:434-509 | whatever verification runs into, a match says that every row under the root was read and verified, if and only if a match cannot occur or all those rows are still there and their sessions listed |
| `Anchors.UnlistedDayMatchesIff` | anchor_logger.py:421-455 | when the file does not open for the listing, the report is a match exactly when the roots are equal, and vouches for no row |
| `Anchors.OneMomentMatchesIff` | anchor_logger.py:466-532 | read at one moment, a match is that of the store, with all rows still there |
| `Anchors.DayHashesDistinct` | audit.py:157-162 | the leaves of a day with intact chains are distinct, as payloads start with the id |
| `Anchors.DayLeavesApart` | anchor_logger.py:86-96 | no leaf of such a day is a node of another such day's tree, as payloads have a colon and hashed pairs have none |
| `Anchors.SameRootSameHashes` | anchor_logger.py:79-96 | two days of linked rows with one root have the same hashes, without comparing their counts |
| `Anchors.MatchKeepsHashes` | anchor_logger.py:495-509 | a match of a day that was intact when anchored means the same row hashes in the same order and as many rows as the anchor counted, although the count is not compared |
| `Anchors.MatchMeansUnchanged` | anchor_logger.py:466-532 | if the day was intact when anchored and later matches, read at one moment or at several between which no row of it goes away, it has exactly the rows it had, each with its hash and hashed fields; for rows whose free texts, as anchored, have no colon |
| `Anchors.FirstAnchorStays` | anchor_logger.py:375-391 | later anchors for a date do not replace the first |
| `Anchors.UnchangedDayMatchesIff` | anchor_logger.py:466-532 | a day whose recorded hashes are unchanged matches if and only if its sessions are intact |
| `Anchors.AppendKeepsMatch` | anchor_logger.py:495-509 | an append dated another day keeps a matching day matching |
| `Anchors.RunKeepsMatch` | anchor_logger.py:495-509 | so does every interleaving of writers whose committed rows are dated other days |
| `Anchors.AppendMatchesIff` | audit.py:387-454 | an append keeps a matching day of tracked sessions matching if and only if it is dated another day |
| `Anchors.RunMatchesIff` | audit.py:290-387 | after any interleaving of writers the day still matches if and only if none of the committed rows is of that day |
| `Anchors.MatchBesideWritersIff` | anchor_logger.py:434-509 | a verification that reads while writers append rows of other days finds a match if and only if no session of the day commits a row between the reading of its rows and of its head |
| `Anchors.UntouchedDayTampered` | anchor_logger.py:434-509 | a run from an empty log in which a day that matches before and after is reported as tampered |
| `Migrations.PrefixReconciles` | migrations/runner.py:244-290 | a ledger of a prefix is accepted and exactly the remaining files are pending |
| `Migrations.ReconcileIff` | migrations/runner.py:244-290 | reconcile accepts a ledger if and only if it records a prefix of the sorted files under accepted checksums |
| `Migrations.RefusedIff` | migrations/runner.py:252-289 | each refusal by its cause, the first that applies: an edited file, a recorded file that is gone, an unrecorded file before a recorded one |
| `Migrations.ApplyNext` | migrations/runner.py:293-312 | applying the first pending file leads from one prefix, ledger and schema, to the next |
| `Migrations.RecordedIff` | migrations/runner.py:280-280 | a file is recorded exactly when it is in the prefix |
| `MigrationRuns.Database.constructor` | migrations/runner.py:113-120 | an empty ledger and an empty schema |
| `MigrationRuns.Database.ApplyOne` | migrations/runner.py:293-312 | statements and ledger row are both written or neither is; a recorded name or failing SQL refuses |
| `MigrationRuns.Database.Plan` | migrations/runner.py:399-403 | the verdict of reconcile on the current ledger |
| `MigrationRuns.Database.ApplyPending` | migrations/runner.py:405-410 | lock check and one file; on refusal nothing changed |
| `MigrationRuns.Database.ApplyAll` | migrations/runner.py:405-411 | the loop stops at the first refusal with a longer or equal prefix applied, and reports the applied names when it completes |
| `MigrationRuns.Database.Migrate` | migrations/runner.py:395-413 | success exactly when all files are applied; a refused ledger changes nothing; a failure leaves a prefix |
| `MigrationRuns.CommitKeepsInv` | migrations/runner.py:302-312 | a ledger insert that succeeds belongs to the first unapplied file, whose statements therefore ran on the committed schema |
| `MigrationRuns.StepKeepsInv` | migrations/runner.py:293-413 | every event of every runner, including losing the lock and crashing, keeps the prefix invariant |
| `MigrationRuns.EveryRunAppliesAPrefix` | migrations/runner.py:293-413 | in every interleaving the ledger is a prefix of the sorted files, no file is committed twice, the schema is that prefix applied in order to an empty database, and a runner that finished left nothing pending |
| `MigrationRuns.CommitWasChecked` | migrations/runner.py:405-410 | in every run whatever is committed was preceded by a lock check of the same runner, for that file, that found the lock held by it |
| `MigrationRuns.StopsIff` | migrations/runner.py:244-345 | a runner stops exactly on a crash, at the end, at a refused ledger, a check without the lock, failing statements or a recorded file; then it has changed nothing and holds no lock |
| `MigrationRuns.StoppedStays` | migrations/runner.py:354-376 | a runner that stopped commits nothing more and stays as it ended |
| `MigrationRuns.LostLockCommitsNothing` | migrations/runner.py:315-345 | a runner that checks for a lock it does not hold commits nothing more in any run |
| `MigrationRuns.LostLockOneMore` | migrations/runner.py:405-410 | a runner that lost the lock commits at most the one file it had checked for |
| `MigrationRuns.LostLockIsFree` | migrations/runner.py:315-345 | a lost lock is free for the next runner, who could not have it before, and the one that lost it goes on unawares |
| `MigrationRuns.OnlyHolderLoses` | migrations/runner.py:315-345 | nobody loses another's lock |
| `MigrationRuns.RunnersTakeTurns` | migrations/runner.py:348-376 | in every run without a lost lock at most one runner is at work, it holds the lock, and the lock is free when none is |
| `MigrationRuns.UndisturbedFinishesIff` | migrations/runner.py:395-413 | from every reachable state with a free lock a new undisturbed runner ends done, with all files recorded and the lock free, if and only if the SQL of all files succeeds in order |
| `MigrationRuns.CompleteIsStable` | migrations/runner.py:395-413 | once all files are applied no further runs change ledger or schema |
| `LineEndings.SameEquivalents` | migrations/runner.py:171-186 | the LF file and the CRLF file of a CR-free text have the same accepted checksums |
| `LineEndings.CrlfInjective` | migrations/runner.py:185-185 | different texts have different CRLF files |
| `LineEndings.RecordedLfAccepted` | migrations/runner.py:184-186 | a recorded LF file is accepted exactly when the text is unchanged |
| `LineEndings.RecordedCrlfAccepted` | migrations/runner.py:184-186 | a recorded CRLF file is accepted exactly when the text is unchanged or the file reduces to the recorded bytes |
| `LineEndings.ReconcileUpToLineEndings` | migrations/runner.py:252-258 | for files whose CRs all belong to CRLFs reconcile accepts exactly the same text up to line endings, and otherwise reports an edit |
| `LineEndings.StrayCrAccepted` | migrations/runner.py:184-186 | the exception: CR CR LF is accepted for a recorded CRLF |
| `AnthropicWire.ToAnthropicMessages` | runtime/anthropic_wire.py:104-172 | the loop with its buffer computes the recursive translation |
| `AnthropicWire.AfterTranslates` | runtime/anthropic_wire.py:114-172 | output and buffer after any part of a history, continued over the rest, give the translation of the whole |
| `AnthropicWire.ToolResultMeans` | runtime/anthropic_wire.py:122-135 | a result names its call, or "unknown", and carries its text, or the printed form of other content |
| `AnthropicWire.ArgsMean` | runtime/anthropic_wire.py:145-162 | the input of a tool use is the object given or parsed, and an empty object otherwise |
| `AnthropicWire.DroppedIff` | runtime/anthropic_wire.py:137-172 | a message is dropped exactly when it is an assistant turn without tool calls whose content is absent or counts as empty |
| `AnthropicWire.SplitSystem` | runtime/anthropic_wire.py:90-101 | the text lays out all the system texts that are not blank, in order with an empty line between, and nothing else; all other messages kept in order |
| `AnthropicWire.SystemPartIff` | runtime/anthropic_wire.py:95-99 | those are the texts of the system messages that have a character besides spaces |
| `AnthropicWire.JoinLaysOut` | runtime/anthropic_wire.py:101-101 | every part stands in the joined text at its offset with the separator before it, and the length leaves room for nothing else |
| `AnthropicWire.LaidOutUnique` | runtime/anthropic_wire.py:101-101 | which determines the text |
| `AnthropicWire.JoinAppend` | runtime/anthropic_wire.py:101-101 | joining two non-empty lists is joining their joins |
| `AnthropicWire.BuildRequest` | runtime/anthropic_wire.py:197-214 | the body translates the messages without the system ones, names a system text, laying out all that are not blank, exactly when there is one, and asks for the tokens given or for one |
| `AnthropicWire.JoinedIsText` | runtime/anthropic_wire.py:208-209 | testing the joined system text is testing for a system message with text |
| `AnthropicWire.RequestRoles` | runtime/anthropic_wire.py:202-207 | no message of a body has the system or tool role, or tool calls in the history's form |
| `AnthropicWire.TranslationIsSettled` | runtime/anthropic_wire.py:122-172 | no tool message and no message with tool calls is left |
| `AnthropicWire.IdempotentIff` | runtime/anthropic_wire.py:104-172 | translating twice is translating once if and only if every tool turn leaves a block |
| `AnthropicWire.OrderPreserved` | runtime/anthropic_wire.py:104-172 | the flattened text, tool-use and tool-result items are those of the history in the same order, less blank text of tool turns and empty assistant turns |
| `AgentLoop.FromAnthropicResponse` | runtime/anthropic_wire.py:217-267 | message, finish reason and token sums of the normalised reply; its content lays out all the non-empty texts, one a line, and is absent exactly when there is none |
| `AgentLoop.ReplyCallMeans` | runtime/anthropic_wire.py:235-243 | a tool use becomes one call with its id, its name and its input printed, an empty value as an empty object |
| `AgentLoop.UsesOfCallsIff` | runtime/anthropic_wire.py:145-162 | the calls translate back to the reply's tool_use blocks, in order, exactly when every id is non-empty |
| `AgentLoop.ReplyRoundTripIff` | runtime/anthropic_wire.py:217-267 | normalise, then translate back: at most one text block joining the non-empty texts, then the same tool_use blocks, if and only if every id is non-empty |
| `AgentLoop.HistoryTranslates` | runtime/anthropic_wire.py:122-172 | the turns of the loop translate to exactly two messages each: the assistant turn and one user message with all its results |
| `AgentLoop.TurnIsAnswered` | agent_runtime.py:803-814 | a turn's tool_use ids are, in order, the tool_result ids of the next message |
| `AgentLoop.RequestIsWellPaired` | agent_runtime.py:619-622 | without its system message the history translates to a user message followed by answered assistant turns |
| `AgentLoop.WellPairedAt` | runtime/anthropic_wire.py:107-112 | that is: roles alternate, user first and last, and every assistant turn is answered by the very next message |
| `AgentLoop.SystemOfHistory` | runtime/anthropic_wire.py:202-209 | the loop's system prompt becomes the `system` parameter, unless it is blank |
| `AgentLoop.RunTools` | agent_runtime.py:806-814 | one tool message per call, in call order, with that call's id or "unknown" and that tool's result |
| `AgentLoop.SendRequest` | agent_runtime.py:662-664 | the next request is built from the history as it stands with the budget of the run, and is well paired |
| `AgentLoop.CallModel` | agent_runtime.py:662-700 | one call: tokens are counted, and the loop ends if it raised, if the tokens exceed the budget, or with the text of a reply without tool calls |
| `AgentLoop.RecordTurn` | agent_runtime.py:803-814 | a turn that calls tools adds the reply and one tool message per call to the history |
| `AgentLoop.RunLoop` | agent_runtime.py:640-814 | body k carries the opening and the first k turns, each the reply of its call and its tools' results, and is well paired; at most ten requests; every end has its cause, the first to occur: a late turn, a raising call, tokens over budget, or a reply without tool calls, whose text is the answer; the separate call limit never fires |
| `AgentLoop.EndingMeans` | agent_runtime.py:640-690 | no request was sent late and no earlier turn had used up the token budget |
| `Jobs.MoveAllRows` | job_store.py:310-316 | a batch changes a row exactly when it is in the batch |
| `Jobs.StepColumns` | job_store.py:184-382 | what any call does to a row that exists: key, webhook, escrow and creation never change, the start is the first time it runs, the completion the last time it comes to a terminal status, the heartbeat its last claim or heartbeat |
| `Jobs.NewRowColumns` | job_store.py:85-172 | a new job is queued under its key, webhook and escrow; a child runs from the start and has none |
| `Jobs.CreateAddsIff` | job_store.py:76-84 | a job is added unless its key is another's; without a key it is nobody's |
| `Jobs.ChildKeepsPathsIff` | job_store.py:149-171 | creating a child keeps every event log a path if and only if its id is new |
| `Jobs.StepKeepsPaths` | job_store.py:242-254 | every store call keeps every log a connected path ending in the row's status |
| `Jobs.EveryLogIsAPath` | job_store.py:85-110 | so in every run: the first event has no predecessor, each starts where the last ended, the last names the row's status |
| `Jobs.LogsArePathsIff` | job_store.py:163-171 | the logs are paths at every moment of a run if and only if all child ids were new |
| `Jobs.ClaimedAtMostOnce` | job_store.py:268-332 | a job is claimed at most once in any run that never requeues, and a job outside the queue not at all |
| `Jobs.RequeueMakesClaimable` | job_store.py:242-245 | what that excludes: one update to QUEUED makes a running job claimable again |
| `Jobs.TerminalLeftOnlyByOverride` | job_store.py:233-241 | no call but an overriding update moves a job out of a terminal status |
| `Jobs.TerminalStays` | job_store.py:233-241 | over a whole run without an override a terminal status stays |
| `Jobs.UpdateChangesIff` | job_store.py:233-241 | an update without override changes the status if and only if that is not terminal and not the new one |
| `Jobs.DeliveryProtectedIff` | job_store.py:233-241 | a delivered job is protected from every such update if and only if it is plain DELIVERED; with an artifact warning it can be failed or requeued |
| `Jobs.StepKeepsStamps` | job_store.py:338-346 | a running row always has its start time and a terminal row its completion time, so the reaper never goes by the creation time |
| `Jobs.SignIsLastSeen` | job_store.py:359-360 | the time the reaper compares is the last claim, heartbeat, child insert or creation of the run |
| `Jobs.ReapedMeansSilent` | job_store.py:348-382 | a job the reaper changes was RUNNING, becomes EXPIRED and was last seen more than N minutes before |
| `Jobs.KeptAliveIsNeverReaped` | job_store.py:335-382 | a job seen within N minutes at every reap is never touched by one, in any interleaving |
| `Jobs.AttendedIsKeptAlive` | job_store.py:258-265 | if, while the job runs, no call comes more than N minutes after a sign of life of it without a heartbeat or its end within that time, no reap ever finds it silent for longer; on any clock |
| `Jobs.HeartbeatsKeepAlive` | job_store.py:335-382 | so a claim or child insert and heartbeats never more than N minutes apart keep a job from every reaper that waits N minutes, in any interleaving |
| `Jobs.StepKeepsKeysUnique` | job_store.py:76-84 | no two jobs ever share an idempotency key |
| `JobStore.BulkUpdateIsMoveAll` | job_store.py:310-330 | one bulk update and then one event per returned row is a batch of single moves |
| `JobStore.JobTable.constructor` | job_store.py:59-111 | empty tables |
| `JobStore.JobTable.CreateJob` | job_store.py:59-111 | a known key gives back its job and changes nothing; otherwise a queued row and its first event |
| `JobStore.JobTable.CreateChildJob` | job_store.py:141-172 | a running row unless the id exists, and the event in either case |
| `JobStore.JobTable.UpdateJobStatus` | job_store.py:184-255 | false and no change for a missing row or a refused terminal move, else the move and its event |
| `JobStore.JobTable.Beat` | job_store.py:258-265 | the heartbeat time of an existing row |
| `JobStore.JobTable.ClaimJobById` | job_store.py:268-295 | claims exactly a queued job and returns the claimed row |
| `JobStore.JobTable.PickOldest` | job_store.py:304-308 | up to the limit, queued and unlocked rows, none older left out |
| `JobStore.JobTable.LogMoves` | job_store.py:322-330 | one event per row, in order |
| `JobStore.JobTable.ClaimQueuedJobs` | job_store.py:298-332 | claims queued unlocked rows, each once, up to the limit, all of them when fewer, none younger than one left behind, and logs each |
| `JobStore.JobTable.PickStale` | job_store.py:352-361 | exactly the running rows whose heartbeat, else start, else creation is older than the limit |
| `JobStore.JobTable.ExpireStaleRunningJobs` | job_store.py:335-382 | expires every such row and no other, and logs each |
| `Worker.ProcessJob` | worker.py:99-295 | the effects on every path of try, except and finally and how it is left, with the heartbeat task awaited before the callback |
| `Worker.LeftByExceptionIff` | worker.py:109-278 | it is left by an exception if and only if the heartbeat died, or the handler ran and its update raised |
| `Worker.CallbackIff` | worker.py:275-295 | the callback is sent if and only if there is a webhook, a final status, and the heartbeat did not die |
| `Worker.HandlerRunsIff` | worker.py:127-246 | the handler runs exactly when the agent, the packing of its result or the status update raised |
| `Worker.StatusByCause` | worker.py:127-268 | which status is written by its cause: delivered, delivered with a warning exactly when the upload raised, failed, or none when cancelled; and which one the callback reports |
| `Worker.LeftByCancellationIff` | worker.py:127-295 | it is left by a cancellation exactly when the heartbeat lives and the agent, the upload, a payment made or the callback was cancelled |
| `Worker.PaymentsOfJob` | worker.py:127-271 | the payments of every path: at most one, a settlement exactly when the update to a delivered status returned, a refund exactly when one to FAILED did instead, none with a webhook |
| `Worker.PaymentFollowsStatus` | worker.py:171-243 | a settlement comes right after an update to a delivered status, a refund right after one to FAILED |
| `Worker.StatusesOfJob` | worker.py:163-295 | only delivered or failed statuses are written, and the callback comes once, last, with a status that was written |
| `WorkerRuns.NextKeepsInv` | worker.py:304-382 | every happening (a claim that starts tasks, one effect of a task, a heartbeat, any other store call, an administrator's release, a process dying) keeps: each task has done a beginning of what `process_job` does for the row it claimed, and no job has two tasks |
| `WorkerRuns.EveryJobFollowsOnePath` | worker.py:99-295 | in every interleaving what was done for a job is a beginning of one path of `process_job`, or nothing |
| `WorkerRuns.ClaimStartsTasks` | worker.py:376-382 | a claim starts for each claimed job a task with all that `process_job` does for the row as claimed |
| `WorkerRuns.TaskCompletes` | worker.py:99-295 | left to itself a task does everything it has to do, in order |
| `WorkerRuns.KilledIsSilent` | worker.py:304-382 | a task whose process died does nothing more in any run |
| `WorkerRuns.BeatIsRecorded` | worker.py:109-112 | a heartbeat of a task is recorded on its job |
| `WorkerRuns.WorkerPaymentOwned` | worker.py:179-199 | a worker pays only for a job it claimed with an escrow and without a webhook |
| `WorkerRuns.WorkersPayAtMostOnce` | worker.py:304-345 | in every interleaving of workers, reapers and other callers, with any failures and deaths, workers settle or refund a job at most once in total, never with a webhook or without an escrow, and only right after the status that goes with it was written |
| `WorkerRuns.FurtherPaymentIff` | main.py:2866-2881 | at any moment of any run, a happening pays for a job that was paid for before if and only if it is an administrator's refund that meets its guard, after any payment, or the worker's payment after such a refund; never a worker's after a worker's |
| `WorkerRuns.PaidAgainIff` | main.py:2866-2881 | so over a whole run a job is paid for more than once if and only if its escrow is released by such refunds twice, or once besides a payment by its worker |
| `WorkerRuns.NoEscrowNoPayment` | main.py:2872-2876 | a job without an escrow is paid for by nobody |
| `WorkerRuns.SettledThenRefunded` | main.py:2872-2876 | a job its worker settled is released by an administrator's refund |
| `WorkerRuns.RunIsStoreRun` | worker.py:304-382 | the table the workers share undergoes a run of store calls that never requeues, so what holds of every such run holds of it |
| `WorkerRuns.WorkersKeepPaths` | job_store.py:242-254 | the event logs stay paths in every interleaving of workers, if child ids are new |
| `WorkerRuns.PaymentMatchesRecordIff` | worker.py:171-206 | as long as no other update or reap of that job comes in between, whatever else does, a paid job stands in the status that goes with the payment if and only if it was in no other terminal status before the update |
| `WorkerRuns.ExpiredJobIsSettled` | worker.py:171-199 | otherwise it does not: a reaped job whose worker finishes late is settled and stays EXPIRED |
| `WorkerPool.Pool.constructor` | worker.py:355-357 | no tasks at first |
| `WorkerPool.Pool.Round` | worker.py:361-382 | never more tasks than the limit; of the jobs queued before the round it claims, and starts a task for, as many as there are free slots, or all the unlocked ones if they are fewer, none younger than one left behind; when due it expires exactly the jobs silent for five minutes; the table undergoes a run of store calls |
| `SingleUse.SpentStore.constructor` | runtime/action_grants.py:129-132 | an empty store |
| `SingleUse.SpentStore.Spend` | runtime/action_grants.py:105-142 | check, sweep and insert; a conflict undoes the sweep as well |
| `SingleUse.KeptUntilSwept` | runtime/action_grants.py:107-116 | an accepted key is remembered exactly until an accepted call sweeps past its expiry |
| `SingleUse.ReacceptedIff` | runtime/request_auth.py:140-155 | a second presentation is accepted if and only if it passes and some sweep since, or its own, was past the first expiry |
| `SingleUse.SweepOfReplay` | runtime/request_auth.py:140-155 | a message accepted twice exposes a sweep past its expiry in between |
| `SingleUse.ReplayAccepted` | runtime/request_auth.py:140-155 | a run in which such a sweep comes between two presentations accepts both |
| `SingleUse.SafeClockSuffices` | runtime/request_auth.py:170-187 | on a clock whose sweeps do not run ahead no message is accepted twice |
| `SingleUse.AheadReplays` | runtime/request_auth.py:170-187 | on any other clock some message is accepted twice |
| `SingleUse.SingleUseIff` | runtime/request_auth.py:132-187 | every run on a clock is single-use if and only if no sweep runs ahead of both presentations |
| `SingleUse.WallClockSafeIff` | runtime/request_auth.py:143-143 | for a wall clock: if and only if each call takes both readings in one second or follows the previous one by more than a lifetime |
| `SingleUse.OneReadingAtMostOnce` | runtime/action_grants.py:82-90 | one reading for both purposes, calls served in the order of their readings: single-use for messages of any lifetime |
| `SingleUse.OneReadingSafeIff` | runtime/action_grants.py:56-116 | with one reading but calls served in any order: if and only if no call is served between two others on a later reading than both |
| `Base64Url.TextRepads` | runtime/request_auth.py:300-316 | the stripped text has the alphabet's letters only, a length fixed by the input's, and -len mod 4 restores the padding |
| `Base64Url.DecodeEncode` | runtime/request_auth.py:300-316 | decoding gives back every byte sequence |
| `Base64Url.TextRoundTrip` | runtime/request_auth.py:316-316 | the reader recovers the exact bytes from the unpadded text, which has no dot |
| `Tokens.SplitIff` | runtime/request_auth.py:308-308 | splitting at the first two dots and joining are inverse; only the last part may have dots |
| `Tokens.OpenIff` | runtime/request_auth.py:307-320 | a token over a payload text opens exactly to what the text decodes to |
| `Tokens.OpenedIsSigned` | runtime/request_auth.py:311-316 | whatever opens carries the MAC of its payload text under this key |
| `Tokens.OpenRefused` | runtime/request_auth.py:307-320 | what does not open is refused by its reason, the first that applies: another prefix, a key under 32 characters, text that cannot be compared, another signature, a payload that is no text |
| `Tokens.TwoDotsNeeded` | runtime/request_auth.py:308-310 | a text without two dots is malformed under any prefix |
| `Tokens.OpenSeal` | runtime/action_grants.py:45-64 | opening undoes sealing for every payload |
| `Tokens.Lifetime` | runtime/action_grants.py:43-43 | at least one second, at most the maximum, and the request itself in between |
| `PrincipalTokens.Sorted` | runtime/request_auth.py:297-297 | the scopes in strictly ascending order, each once |
| `PrincipalTokens.AscendingUnique` | runtime/request_auth.py:297-297 | that listing is unique, so the printed token depends on the set alone |
| `PrincipalTokens.CheckClaimsIff` | runtime/request_auth.py:321-332 | claims of any origin give a principal if and only if version, audience, subject, tenant, expiry and time are right, and it is the one they name |
| `PrincipalTokens.IssuedTokenVerifies` | runtime/request_auth.py:290-332 | for every principal, ttl and instant: expired outside [iat - 60, exp], identity missing without subject or tenant, otherwise the same principal, tenant, client and scopes; lifetime 1 to 600 seconds |
| `PrincipalTokens.ShortKeyRefused` | runtime/request_auth.py:283-287 | no token is issued or accepted under a key of fewer than 32 characters |
| `PrincipalTokens.VerifiedWasIssued` | runtime/request_auth.py:305-332 | if only issued payloads are signed, a verified token returns an issued principal within that issuance's lifetime |
| `ActionGrants.RunChecks` | runtime/action_grants.py:73-81 | the error of the first binding that fails, in the order of the checks |
| `ActionGrants.FirstErrorAt` | runtime/action_grants.py:73-81 | a check that fails reports its own error, or that its texts cannot be compared exactly when one is not ASCII |
| `ActionGrants.NoErrorIff` | runtime/action_grants.py:79-81 | no error if and only if every binding holds |
| `ActionGrants.GrantDesk.constructor` | runtime/action_grants.py:123-132 | nothing spent at first |
| `ActionGrants.GrantDesk.Consume` | runtime/action_grants.py:52-91 | honoured exactly when it passes and is not spent, with every refusal by its reason; a refusal spends nothing |
| `ActionGrants.GrantsAreSingleUse` | runtime/action_grants.py:71-142 | for uses served in the order of their readings no two honoured ones share a token, nor an id and expiry, although expired rows are swept |
| `ActionGrants.IssuedGrantPassesIff` | runtime/action_grants.py:34-91 | an issued grant passes if and only if it is used by its principal and tenant for its tool and argument digest, from a minute before issue to its expiry |
| `ActionGrants.MatchMeansSameCall` | runtime/action_grants.py:29-31 | without a digest collision that is the same tool with the same arguments |
| `ActionGrants.PassedWasIssued` | runtime/action_grants.py:52-91 | if only issued payloads are signed, a use that passes is of an issued grant, for its call and within its time |
| `ActionGrants.EachGrantHonouredOnce` | runtime/action_grants.py:52-142 | then, in that order, two honoured uses are of two issued grants with different ids |
| `ActionGrants.GrantsSingleUseIff` | runtime/action_grants.py:56-142 | for uses served in any order: every run on a clock honours every issued grant at most once if and only if no use is served, between two whose readings are within 360 seconds, on a later reading than both |
| `ActionGrants.ReplayExample` | runtime/action_grants.py:107-116 | a grant expiring at 10, used at 10, and again by a call that read 10 but is served after one that read 11, is honoured twice |
| `Envelopes.AdmittedMeans` | runtime/request_auth.py:201-234 | an admitted envelope is signed by the sole enabled holder of its key, who has the scope, within 300 seconds of the reading |
| `Envelopes.AdmittedIff` | runtime/request_auth.py:201-232 | an envelope is admitted for a client if and only if it is well formed, fresh and signed, and that client alone is enabled with its key and has the scope |
| `Envelopes.RefusedBy` | runtime/request_auth.py:201-232 | every refusal has its cause |
| `Envelopes.Gateway.constructor` | runtime/request_auth.py:158-175 | no nonces at first |
| `Envelopes.Gateway.Verify` | runtime/request_auth.py:190-242 | under the registry as this call loads it: accepted, and its nonce consumed, exactly when admitted and not held; refusals by their reason, with the nonces unchanged |
| `Envelopes.RepeatedForAnotherClient` | runtime/request_auth.py:217-234 | on a safe clock a key, nonce and timestamp are accepted again only for another client id |
| `Envelopes.EnvelopesAreSingleUse` | runtime/request_auth.py:201-234 | on a safe clock, if no key passes to another client id, no key, nonce and timestamp are accepted twice, whatever the payload or the text of the signature |
| `Envelopes.EnvelopesSingleUseIff` | runtime/request_auth.py:132-234 | under one registry with a client that signs, every run of requests on a clock accepts every key, nonce and timestamp at most once if and only if no sweep runs ahead of two skew checks within 600 seconds |
| `Envelopes.RepeatedAtOnceIff` | runtime/request_auth.py:143-234 | a repetition at once is accepted, for the same client id, exactly when its last second passes between the two readings; for another, exactly when that one does not hold the nonce |
| `Knowledge.FilterByPermission` | knowledge_backbone.py:28-56 | exactly the rows whose snapshot is public or lists the principal; none without a principal, and no row without a snapshot |
| `Knowledge.Best` | knowledge_backbone.py:71-72 | the highest score, the earliest on a tie |
| `Knowledge.BestUnique` | knowledge_backbone.py:103-106 | which determines the row |
| `Knowledge.DedupByIdentity` | knowledge_backbone.py:59-73 | the dictionary-and-order loop is one best row per identity, in first-seen order |
| `Knowledge.MaxByScore` | knowledge_backbone.py:103-106 | the first of the highest |
| `Knowledge.PickGroup` | knowledge_backbone.py:94-107 | a lone row, else the best canonical row, else the best row |
| `Knowledge.DedupByContent` | knowledge_backbone.py:76-108 | the grouping loop is one pick per content hash, in first-seen order |
| `Knowledge.ResolveRows` | knowledge_backbone.py:118-129 | filter, identity stage, content stage |
| `KnowledgeLaws.DedupShape` | knowledge_backbone.py:59-108 | a stage keeps one row of the input per key, keys in first-seen order |
| `KnowledgeLaws.ResolvedRows` | knowledge_backbone.py:118-129 | only rows of the input whose snapshot is public or lists the principal; no two with one drive and file, no two with one content hash; first-seen order |
| `KnowledgeLaws.EveryRowRepresented` | knowledge_backbone.py:111-129 | every accessible row is represented: the best copy of its drive and file wins, scored no lower, and a row with that copy's content is returned |
| `KnowledgeLaws.CanonicalPrecedence` | knowledge_backbone.py:94-107 | a returned row is canonical if and only if one of its copies is, and no copy of its kind has a higher score, a missing one counting as zero; earliest on a tie |
| `KnowledgeLaws.ResolveTwice` | knowledge_backbone.py:118-129 | resolving is idempotent |
| `KnowledgeLaws.InaccessibleIrrelevant` | knowledge_backbone.py:118-129 | a row the principal may not see has no influence, wherever it stands |
| `KnowledgeLaws.NobodySeesNothing` | knowledge_backbone.py:54-55 | without a principal nothing is returned |

## Left out

- SHA-256, HMAC, Ed25519, JSON and UTF-8 themselves: functions with the stated hypotheses.
- Timestamps as floating-point numbers: the chain counts nanoseconds and prints them by a function without colons that keeps different times apart; dates are day numbers, so a malformed date string is outside the model.
- `_sanitize`, `strip_outer_transaction` and other regular-expression scanning; SQL that the runner refuses to run counts as SQL that fails.
- Failures to read the anchor store, which the code treats as no anchor, and malformed lines in it.
- Envelopes.Gateway.Verify: the trusted-client registry each call loads is a list already read, and timestamp parsing is a given function.
- Base64Url.DecodeEncode: the decoder of the model refuses texts with characters outside the alphabet, where the library skips some; such a text only reaches the decoder if it carries a valid MAC.
- Tokens.OpenIff: a payload that is valid JSON but not an object counts as unreadable.
- AnthropicWire.ToAnthropicMessages: ids and names are texts, and the flat form of a tool call without a `function` member is read like the nested one; numbers are integers.
- AgentLoop.RunLoop: which tools run and what they return is a parameter; file counts, tracing, success criteria, retries with another model and the OpenAI wire format are not modelled.
- WorkerRuns.FurtherPaymentIff: the release after a failed enqueue, the payments of the synchronous route and an escrow id shared by several jobs are not modelled; a release counts as made even if the call raises.
- Delegation budgets: the tool that charges children is outside the modelled files.
- Jobs.StepKeepsPaths: every store call is one atomic step, so the race between the SELECT and the UPDATE of `update_job_status`, which takes no row lock, is not modelled; neither are columns that no decision reads.
- Worker.ProcessJob: log lines, counters and the retries of the callback request are not modelled; a payment call counts as made even if it raises.
- Knowledge.DedupByIdentity: scores are real numbers, so not-a-number and a score that is present but null are outside the model.
- Lock waiting, fairness and eventual progress of writers and runners: the concurrent models are about safety.
- `main.py` routes, `conduit_*`, `artifact_store.py`, `escrow_client.py`, `proof_bridge.py`, `retrieval_*`, `trigger_dispatch.py`, sandboxing and tracing: input, output and network plumbing.
- `runtime/tool_policy.py`, `accounting/*`, `bundle_loader.py`, `capability_cards.py`, `eval/*`, model id translation and tool schema conversion: finite tables and lookups that would only add easy members.
