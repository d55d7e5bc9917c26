# Jianmen: a verified model

Jianmen is an access gateway: it provisions database accounts, authorizes users, records
sessions and redacts what it records. This project models the parts of it whose correctness
is not plain from the code, and proves what they promise. `dafny verify dfyconfig.toml`
checks everything.

## What is modelled

**Provisioning of database accounts** (`Saga*.dfy`). A request, reconcilers and
deprovisioners drive a stored operation through thirteen stages around CREATE, GRANT and
DROP on an upstream server. `SagaStore` holds the row and the fenced writes, `SagaProgram`
the programs as points between their atomic steps, `SagaWorld` all interleavings of any
number of workers and operations: every call may fail, may fail after it took effect, and a
worker may stop anywhere. The results are over every run.

- *No orphans* (`SagaSafety`), and exactly when (`SagaNecessity`). Two facts about the
  environment decide it. A statement must have no effect once the call that sent it has
  returned. And since the store's transition writes the row in one statement and reads it
  back in another, the stale period must be at least the cleanup timeout, or a reconciler
  can claim the operation in between and the request take the reconciler's row for its own.
  With either missing there is a run that ends with an upstream user no operation answers
  for; with both there is none.
- *The lease excludes* (`SagaExclusion`), and exactly when. Because of the same read-back,
  two workers can act at once unless the stale period is at least three leases plus the
  cleanup timeout, less three ticks of the clock. Under the same condition, and only under
  it, whatever a worker sends can take effect only in its own stage: DROP in
  cleanup_in_progress or drop_started. And if CREATE moreover has no late effects, then, and
  only then, the same holds of every statement, a CREATE that was given up included, and at
  most one statement of an operation can take effect at any instant. The
  shipped durations (lease 30 s, cleanup 10 s, stale 30 s) are safe against orphans but not
  exclusive: `DropTwice` and `DropOutOfItsStage` are runs with them. If the store returned
  the row as written, the lease would exclude under every configuration.
- *Once* (`SagaOnce`). Under every configuration CREATE is sent at most once per operation.
- *Outcomes* (`SagaProvisioning`, `SagaOutcomes`, `SagaEndings`). Under every configuration a
  request whose grants are acknowledged never turns to cleanup. From every reachable world a
  request, a deprovisioning or a cleanup that works alone ends as the answers to its statements
  say, and so a request can succeed.
- *Recovery* (`SagaRecovery`). From every reachable state one reconciler alone can finish.

**The SQL redactor and the audit artifact** (`SqlRedactor*.dfy`, `SqlStreamRedactor`,
`Utf8*`, `SqlProcessor`, `ArtifactWriter`, `SqlCapture`). The sixteen-state byte machine is a
pure step; the object with its registers and reprocess loop is proved equal to its fold.
Redaction is idempotent, independent of chunking, blind to what is inside literals and
comments, at most twelve times as long as its input, and keeps UTF-8 valid. What it takes for
a number or the value of a sensitive name is told by the bytes themselves
(`SqlRedactorSensitive`): no such value shows, and no other word is touched. The writer runs over
a file whose every call may fail.

**Authorization** (`Authorization*.dfy`). One request at a time against the batch with its
index, over one snapshot of the tables. Run side by side they agree exactly outside two
kinds of request. What they decide is also told by the rows, field by field
(`AuthorizationMeaning`): a deny beats every allow, and who is allowed has the rows for it.

**Session recording** (`CommandRecorder`, `CommandTyping`, `LineStream*`, `LineRedactor`). Two
logs and an output file cut into sections, with every outlet allowed to fail; what keys become
commands, and that the answer to a prompt leaves no trace. And the redactor that waits
for lines and keeps private keys together: the object is proved equal to functions of the
frames it takes, and those functions are compared with a text that is there as a whole. How a
stream is cut into frames does not matter to its keys, as long as no cut parts a carriage
return from its line feed, if and only if the policy lets part of an unfinished line go only
when neither that line nor the rest of it can open a key.

**Retention and settings** (`Retention`, `SystemSettings`, `SettingsUpdates`). A bounded cleanup
pass over a store whose calls fail with or without effect, each failure noted in a log the
results are stated over; and revisioned settings under every interleaving of bootstraps and
updates, in which nothing that protects is given up without confirmation.

**The SQL console** (`SqlConsole`, `SqlConsoleTexts`, `SqlConsoleWords`). The scanner that admits
one statement, compared with the grammar of the texts it admits, and what it takes a text for by
its first word.

## Premises

- One clock serves all processes and the database. Durations are whole ticks.
- Upstream, GRANT creates no user, a statement of which no byte was written is not executed,
  an error packet means no effect, and before the first operation no `jm_` user exists.
  Only CREATE may take effect after its call returned; a late GRANT or DROP is not modelled.
- Operation tokens are fresh: the id is a primary key that outlives the operation.
- For the batch: active groups have a name and one of the two kinds, as the group service
  demands, and no two resources in it share a key of the index. They can share one only if a
  type holds NUL; `KeysCollide` and `GrantByCollision` show what happens then.
- Command records that fail to be written leave no complete line.
- A retention pass is alone at work on its sessions.
- Comparison in the database is exact.

## Where the code and what is said of it differ

- The fence alone does not make a lease exclusive, see above.
- A hot reload publishes a whole revision. With a restart pending it also publishes what was
  waiting for that restart (`HotReloadLetsColdThrough`).
- Publishing settings is not guarded by their revision: a publication that comes after that of a
  later revision puts the earlier one back into effect (`RevisionGoesBack`). A later revision
  that is only stored does no harm (`OvertakenGoesForward`).
- A hot reload reaches the running server before its revision is marked and published. If
  marking fails, the server and the published settings stay apart (`ServerLeftBehind`).
- A carriage return at the end of one frame and the line feed that starts the next are two
  line breaks (`LinesExactlyWhen`).
- A batch refuses a super-admin's request without actions, and every request without a
  resource, that a single authorization lets through.

## Model

| member | source | states |
|---|---|---|
| SagaStore.WritesAdvanceRevision | internal/store/dbstore_database_provisioning_lease.go:14-168 | every accepted transition, claim, renewal and activation names the stored revision in its fence and moves it on by one |
| SagaStore.IdentityIsInjective | internal/service/db_provision_saga.go:419-423 | two operations that own their identity never share an upstream user name |
| SagaProgram.RunCreateStatements | internal/service/db_provision_sql.go:94-132 | the loop over the session setting and CREATE USER yields the disposition that the two replies stand for |
| SagaProgram.DispositionIsHonest | internal/service/db_provision.go:270-307 | "not sent" and "not created" are reported only when CREATE USER did not apply, "applied" only when it did |
| SagaProgram.Configure | internal/service/db_provision_saga.go:319-357 | whatever the options, the service ends up with 0 < cleanup timeout < lease and a positive stale period |
| SagaProgram.ConfiguredAsAsked | internal/service/db_provision_saga.go:319-357 | valid durations are taken as they are; without any the cleanup timeout is 10 s, lease and stale period are 30 s |
| SagaProgram.Timeout | internal/service/db_provision_orchestrator.go:408-432 | a statement is allowed a positive time, less than what is left of the lease and less than a whole lease |
| SagaProgram.SideEffectTimeout | internal/service/db_provision_orchestrator.go:408-432 | the imperative computation agrees with that time, and no window of four ticks or more is refused |
| SagaProgram.FailedWriteStops | internal/service/db_provision_orchestrator.go:155-166 | after a failed write the zero operation owns no identity, so the worker stops and leaves the cleanup to the reconciler |
| SagaSafety.DeadlineInsideLease | internal/service/db_provision_orchestrator.go:367-406 | a deadline counted from before the renewal falls inside the lease counted from the renewal |
| SagaSafety.OthersKeep | internal/service/db_provision_orchestrator.go:111-198 | one worker's step never breaks what another worker relies on: with two workers about, no CREATE USER is open |
| SagaSafety.JoinKeeps | internal/service/db_provision_reconcile.go:88-109 | a claim needs a lease that has run out, so every deadline set under it, and every read-back of a first write, has passed |
| SagaSafety.WriteKeepsRow | internal/store/dbstore_database_provisioning_lease.go:14-63 | a write that goes through was fenced by the stored row and keeps what every stage promises |
| SagaSafety.ReadBackPc | internal/store/dbstore_database_provisioning_lease.go:61-62 | what a worker reads back after its write, possibly another worker's row, is a row its next step is safe on |
| SagaSafety.AnswerPc | internal/service/db_provision_orchestrator.go:137-153 | an honest answer sends the worker to a program point whose claim about the upstream user is true |
| SagaSafety.ClaimOk | internal/service/db_provision_reconcile.go:50-86 | claiming an executable operation keeps the invariant |
| SagaSafety.DeprovisionOk | internal/store/dbstore_database_provisioning_deprovision.go:15-83 | beginning a deprovisioning keeps the invariant |
| SagaSafety.WorkerStepKeeps | internal/service/db_provision_orchestrator.go:111-406 | every step of every worker, including every failure, keeps the invariant of its operation |
| SagaSafety.StatementsAreOwn | internal/service/db_provision_orchestrator.go:264-309 | a statement that takes effect is aimed at its own operation's user; CREATE only in create_started with a single worker, DROP only in a cleanup or drop stage |
| SagaSafety.NextKeeps | internal/service/db_provision_orchestrator.go:111-426 | every event of the whole system, for any number of operations, keeps the invariant of the world |
| SagaSafety.NoOrphan | internal/service/db_provision_orchestrator.go:117-153 | in every run every upstream user belongs to an active operation that is neither reserved nor not_created |
| SagaSafety.StagesKeepTheirPromise | internal/service/db_provision_orchestrator.go:155-197 | in every run: upstream_created to deprovision_requested have a live user, activation_pending on has all grants acknowledged, a local account exists exactly in the managed stages, at most one CREATE was sent, and not_created or retired means no user |
| SagaSafety.DropsAreWarranted | internal/service/db_deprovision.go:36-78 | in every run, a user that disappears is the one of the operation that stepped, in a cleanup or drop stage; a user that appears is that of an operation in create_started |
| SagaExclusion.WriteStands | internal/store/dbstore_database_provisioning_lease.go:14-63 | a write on the way to a statement cannot be claimed over before it has been read back or abandoned |
| SagaExclusion.ReadStands | internal/store/dbstore_database_provisioning_lease.go:61-62 | under the condition on the configuration, what is read back on the way to a statement is the worker's own write |
| SagaExclusion.JoinStands | internal/service/db_provision_reconcile.go:88-109 | whoever joins finds every earlier deadline and guard passed, and becomes the only holder |
| SagaExclusion.WorkerStepAlone | internal/service/db_provision_orchestrator.go:357-406 | every worker step keeps the single-holder invariant |
| SagaExclusion.LeaseExcludes | internal/service/db_provision_orchestrator.go:367-426 | under that condition, at no instant of any run may two workers act upstream for one operation |
| SagaExclusion.ActorsHoldTheLease | internal/service/db_provision_orchestrator.go:367-395 | whoever may act stands on the stored row, in exactly the stage of its statement, under a lease that outlasts its deadline |
| SagaOnce.WorkerOnce | internal/service/db_provision_orchestrator.go:111-198 | no step of any worker leads back to before CREATE USER |
| SagaOnce.CreatedOnce | internal/service/db_provision_orchestrator.go:111-252 | in every run of every configuration CREATE USER is sent at most once for an operation, and none is outstanding unless the server applies late |
| SagaProvisioning.UsersAreNamed | internal/service/db_provision_orchestrator.go:111-309 | in every run of every configuration an upstream user has the name that some operation stores for it |
| SagaProvisioning.GrantsDecide | internal/service/db_provision_orchestrator.go:155-197 | in every run of every configuration: once the grants are acknowledged the request stands only before activation or at its end, never at a cleanup; and it stands before activation only with the grants acknowledged |
| SagaOutcomes.RequestEnds | internal/service/db_provision_orchestrator.go:100-198 | from every reachable world a request with a fresh token that works alone, whatever CREATE, GRANT and DROP are answered, ends as these answers say: CREATE and GRANT acknowledged, the user is live and granted and the account managed, or, if both attempts to activate fail, waits in activation_pending; CREATE not sent or rejected, the operation is not_created with no user; otherwise it is not_created if DROP was acknowledged and cleanup_required if not, without grants or local account, with a user left only if CREATE took effect and DROP did not; unless the account is managed the lease is given back; nothing else changes |
| SagaOutcomes.RequestSucceeds | internal/service/db_provision_orchestrator.go:100-198 | so from every reachable world, under every configuration, a request can reach active_managed, with exactly its user added upstream, granted, and a local account |
| SagaOutcomes.RequestIsCancelled | internal/service/db_provision_orchestrator.go:117-120 | a request that is cancelled before CREATE ends not_created with the lease given back and nothing changed upstream |
| SagaEndings.DeprovisioningEnds | internal/service/db_deprovision.go:36-78 | from every reachable world a deprovisioning of a managed account that works alone ends with user and account gone if DROP is acknowledged and the last write succeeds, and otherwise in drop_uncertain with the lease given back and the account still there; the user is left exactly if DROP did not take effect; nothing else changes |
| SagaEndings.CleanupEnds | internal/service/db_provision_reconcile.go:127-199 | from every reachable world a reconciler that claims an operation in one of the six stages that ask for cleanup, and works alone, ends with it not_created if DROP is acknowledged and in cleanup_required if not, with the lease given back; the user is left exactly if it was there and DROP did not take effect; nothing else changes |
| SagaEndings.UnsentEnds | internal/service/db_provision_orchestrator.go:367-406 | a worker that is cancelled, cannot renew or runs out of time before its statement sends nothing: GRANT is left to a reconciler in cleanup_required, the DROP of a deprovisioning in drop_uncertain, both with the lease given back; every other leaves its row as it is |
| SagaRoutes.RenewInTime | internal/service/db_provision_orchestrator.go:367-395 | a renewal of a full lease leaves lease minus cleanup timeout for the statement |
| SagaRoutes.DropIt | internal/service/db_provision.go:400-426 | a DROP that is sent, applied and acknowledged removes exactly the operation's user |
| SagaRecovery.CleanUp | internal/service/db_provision_reconcile.go:127-199 | from any cleanup stage the reconciler reaches not_created with no user left |
| SagaRecovery.Drop | internal/service/db_deprovision.go:36-78 | from deprovision_requested or drop_uncertain a deprovisioning ends with user and account gone |
| SagaRecovery.FinishClaim | internal/service/db_provision_reconcile.go:50-86 | whatever the stage of the claimed operation, the claimant can bring it to rest |
| SagaRecovery.Recovers | internal/service/db_provision_reconcile.go:19-86 | from every reachable world, whatever was interrupted, one waiting, one claim and steps of that claimant alone bring the operation to rest with its user where the stage says |
| SagaNecessity.LateEffectsOrphan | internal/service/db_provision_orchestrator.go:238-252 | a run with an orphan, for every configuration in which CREATE may apply after its call returned |
| SagaNecessity.EarlyClaimOrphan | internal/store/dbstore_database_provisioning_lease.go:54-62 | a run with an orphan, for every configuration whose stale period is shorter than the cleanup timeout, because the write is read back in a second statement |
| SagaNecessity.NoOrphanExactlyWhen | internal/service/db_provision_orchestrator.go:111-309 | no run orphans a user if and only if statements have no effect after their call and (own write returned or cleanup timeout <= stale period) |
| SagaNecessity.DropTwice | internal/store/dbstore_database_provisioning_lease.go:54-62 | a run in which request and reconciler may both send DROP under one lease, for every configuration outside the condition |
| SagaNecessity.LeaseExcludesExactlyWhen | internal/service/db_provision_orchestrator.go:367-426 | the lease excludes in every run if and only if the write is returned, or must be read at once, or stale period >= 3 leases + cleanup timeout - 3 |
| SagaNecessity.DropOutOfItsStage | internal/store/dbstore_database_provisioning_lease.go:54-62 | for every configuration outside that condition, a run in which a DROP that was sent can take effect while the row says cleanup_required |
| SagaNecessity.StagesKeptExactlyWhen | internal/service/db_provision_orchestrator.go:367-406 | every worker that may act, and every DROP of a worker that can take effect, stands in the stage of its statement in every run if and only if that condition holds |
| SagaNecessity.EveryStatementInStageExactlyWhen | internal/service/db_provision_orchestrator.go:238-252 | the same of workers and of a CREATE that was given up but can still apply, if and only if that condition holds and nothing applies late |
| SagaNecessity.LateOverlap | internal/service/db_provision_orchestrator.go:238-252 | for every configuration in which CREATE may apply late, a run in which the request may DROP while its own lost CREATE can still apply |
| SagaNecessity.OneStatementExactlyWhen | internal/service/db_provision_orchestrator.go:367-426 | at most one statement for an operation, late ones included, can take effect at any instant of any run if and only if the lease excludes and nothing applies late |
| SagaNecessity.ShippedConfiguration | cmd/jianmen/database_provisioning_runtime.go:19-32 | the shipped durations are safe against orphans but do not make the lease exclusive |
| SqlRedactor.StepProgress | internal/databaseaudit/sql_redactor.go:54-259 | a byte that is looked at again finds a state of lower rank, so the inner loop ends |
| SqlStreamRedactor.Redactor.ConsumeNormal | internal/databaseaudit/sql_redactor.go:58-87 | one turn in the normal state equals the pure step, output, registers and reprocess flag |
| SqlStreamRedactor.Redactor.ConsumeDollar | internal/databaseaudit/sql_redactor.go:145-185 | the same for dollar tags and bodies |
| SqlStreamRedactor.Redactor.ConsumeText | internal/databaseaudit/sql_redactor.go:88-144 | the same for dashes, slashes, quotes and comments |
| SqlStreamRedactor.Redactor.ConsumeWord | internal/databaseaudit/sql_redactor.go:186-259 | the same for numbers, identifiers, separators and sensitive values |
| SqlStreamRedactor.Redactor.Write | internal/databaseaudit/sql_redactor.go:45-264 | the byte loop over the object's registers equals the fold of the pure step |
| SqlStreamRedactor.Redactor.Flush | internal/databaseaudit/sql_redactor.go:266-293 | flushing writes what is pending and resets the registers |
| SqlRedactorLaws.RunConcat | internal/databaseaudit/sql_redactor.go:45-264 | running two texts in a row is running their concatenation |
| SqlRedactorLaws.ChunkingDoesNotMatter | internal/databaseaudit/sql_redactor.go:45-264 | for every way of cutting the input, the joined output and the final registers are those of one write |
| SqlRedactorLaws.StepCost | internal/databaseaudit/sql_redactor.go:54-259 | each turn pays for its output from the byte's budget and a credit held by the buffered states |
| SqlRedactorLaws.RedactSize | internal/databaseaudit/sql_redactor.go:45-293 | output is at most twelve times the input |
| SqlRedactorLaws.RedactSizeIsTight | internal/databaseaudit/sql_redactor.go:70-73 | twelve is reached |
| SqlRedactorLaws.QuotedInsideIsExact | internal/databaseaudit/sql_redactor.go:111-127 | a text leaves a literal open, with nothing written, if and only if every quote in it is doubled or escaped |
| SqlRedactorLaws.QuotedLiteral | internal/databaseaudit/sql_redactor.go:59-65 | a whole quoted literal writes its quote and one marker, whatever is inside, and leaves the same registers |
| SqlRedactorLaws.BlockCommentLiteral | internal/databaseaudit/sql_redactor.go:99-144 | a whole block comment is replaced by a fixed one, whatever is inside |
| SqlRedactorLaws.DashCommentLiteral | internal/databaseaudit/sql_redactor.go:88-133 | a whole -- comment is replaced by a fixed one and its line break |
| SqlRedactorLaws.HashCommentLiteral | internal/databaseaudit/sql_redactor.go:70-73 | a whole # comment is replaced by a fixed one and its line break |
| SqlRedactorLaws.QuotedContentsDoNotShow | internal/databaseaudit/sql_redactor.go:59-65 | wherever a literal has been opened, exchanging its inside for another that closes at the same quote changes neither output nor registers |
| SqlRedactorLaws.CommentContentsDoNotShow | internal/databaseaudit/sql_redactor.go:134-144 | the same for the inside of a block comment |
| SqlRedactorLaws.LineContentsDoNotShow | internal/databaseaudit/sql_redactor.go:128-133 | the same for the inside of a line comment |
| SqlRedactorLaws.NoInnerBorder | internal/databaseaudit/sql_redactor.go:145-185 | a tag with $ only at its ends has no border longer than one byte |
| SqlRedactorLaws.MatchStep | internal/databaseaudit/sql_redactor.go:171-185 | falling back to one or zero keeps the longest border, as a full search automaton would |
| SqlRedactorLaws.DollarBodyStays | internal/databaseaudit/sql_redactor.go:171-185 | while the tag has not occurred the body stays open, with the match length below the tag's |
| SqlRedactorLaws.DollarBodyCloses | internal/databaseaudit/sql_redactor.go:171-185 | the body closes at a byte if and only if the tag ends there for the first time |
| SqlRedactorLaws.DollarLiteral | internal/databaseaudit/sql_redactor.go:145-185 | a whole dollar-quoted text writes its two tags around one marker |
| SqlRedactorLaws.DollarContentsDoNotShow | internal/databaseaudit/sql_redactor.go:171-185 | exchanging the inside of a dollar-quoted body for another that closes at the same tag changes neither output nor registers |
| SqlRedactorSensitive.KeysAreListed | internal/databaseaudit/sql_redactor.go:295-313 | a word is sensitive if and only if it is one of the ten names, in any case |
| SqlRedactorSensitive.OtherWordsShow | internal/databaseaudit/sql_redactor.go:191-211 | any other word goes out as it is, and what follows it is read as plain text |
| SqlRedactorSensitive.AssignmentIsRedacted | internal/databaseaudit/sql_redactor.go:212-244 | one of the ten names, blanks, =, : or by, blanks and a value go out with a marker in the place of the value |
| SqlRedactorSensitive.SensitiveValuesDoNotShow | internal/databaseaudit/sql_redactor.go:191-259 | wherever such an assignment stands in plain text, exchanging its value for another changes neither the output, to the end of any text, nor the registers |
| SqlRedactorSensitive.ValueEnds | internal/databaseaudit/sql_redactor.go:245-255 | a value reaches to the first byte that is not of a value, which is read as plain text |
| SqlRedactorSensitive.SecondValueIsRedacted | internal/databaseaudit/sql_redactor.go:245-255 | the second word of an authorization becomes a marker too |
| SqlRedactorSensitive.NumberIsRedacted | internal/databaseaudit/sql_redactor.go:320-331 | a number, wherever no word precedes it, becomes one marker |
| SqlRedactorSensitive.NumbersDoNotShow | internal/databaseaudit/sql_redactor.go:186-190 | exchanging a number for another changes neither output nor registers |
| SqlRedactorSensitive.DigitsOfWordsShow | internal/databaseaudit/sql_redactor.go:320-325 | a digit after a byte of a word is no number and goes out as it is |
| SqlRedactorSensitive.DollarTextIsRedacted | internal/databaseaudit/sql_redactor.go:145-185 | text between two equal dollar tags, the empty tag included, becomes one marker between them |
| SqlRedactorIdempotence.ReadMarker | internal/databaseaudit/sql_redactor.go:54-259 | a marker in the input is copied as it is |
| SqlRedactorIdempotence.ByteEchoes | internal/databaseaudit/sql_redactor.go:54-259 | one byte of input, in any of the sixteen states, keeps the simulation between a run and the run on its output |
| SqlRedactorIdempotence.RunEchoes | internal/databaseaudit/sql_redactor.go:45-264 | so does every input |
| SqlRedactorIdempotence.RedactIsIdempotent | internal/databaseaudit/sql_redactor.go:45-293 | redacting the redacted text gives the same text, for every byte string |
| SqlRedactorUtf8.RedactKeepsUtf8 | internal/databaseaudit/sql_redactor.go:45-293 | valid UTF-8 is redacted to valid UTF-8 |
| Utf8.TrimToValid | internal/databaseaudit/capture.go:73-76 | cutting bytes off the end leaves the longest valid prefix (section 4 of RFC 3629) |
| Utf8.TrimLosesLittle | internal/databaseaudit/capture.go:72-78 | of valid text, at most three bytes are lost |
| Utf8Scalars.ValidExactlyWhen | internal/databaseaudit/capture.go:73-76 | a text is valid if and only if it encodes some sequence of Unicode characters, surrogates excluded, by the table in section 3 of RFC 3629 |
| SqlProcessor.Processor.Collect | internal/databaseaudit/capture.go:62-71 | the preview is the first limit bytes of everything collected |
| SqlProcessor.Processor.Write | internal/databaseaudit/capture.go:42-55 | stored text, preview and byte count advance as the pure description says |
| SqlProcessor.Processor.Flush | internal/databaseaudit/capture.go:56-61 | the same for the end of the input |
| SqlProcessor.Processor.Result | internal/databaseaudit/capture.go:72-78 | the result reports the longest valid preview and whether it is shorter than the section |
| ArtifactWriter.BufferedWriter.Flush | internal/auditartifact/writer.go:158-180 | whatever fails, bytes only move from the buffer to the end of the file |
| ArtifactWriter.BufferedWriter.Write | internal/auditartifact/writer.go:191-208 | of the data exactly the reported number of bytes is taken over, also when the call fails |
| ArtifactWriter.Writer.constructor | internal/auditartifact/writer.go:37-49 | a new writer continues at the end of the file |
| ArtifactWriter.Writer.Begin | internal/auditartifact/writer.go:64-82 | which error comes first, and that one capture is open at a time |
| ArtifactWriter.Writer.AbortLocked | internal/auditartifact/writer.go:111-131 | an abort restores the committed bytes, or puts the writer out of use |
| ArtifactWriter.Writer.Close | internal/auditartifact/writer.go:84-109 | closing changes no completed section |
| ArtifactWriter.Capture.WriteStored | internal/auditartifact/writer.go:191-208 | the bytes the writer took are appended to the capture and counted, also when the call fails; the error sticks |
| ArtifactWriter.Capture.Write | internal/auditartifact/writer.go:140-156 | the same through a processor; a call on a capture that is not open is refused and touches nothing |
| ArtifactWriter.Capture.Complete | internal/auditartifact/writer.go:158-180 | a completed capture is a section with exactly its bytes at the end of the file, or is rolled back |
| ArtifactWriter.Capture.Abort | internal/auditartifact/writer.go:182-189 | aborting keeps every completed section |
| ArtifactWriter.TilesCoverOnce | internal/auditartifact/writer.go:158-180 | tiling sections cover every position exactly once |
| ArtifactWriter.Drive | internal/auditartifact/writer.go:64-208 | over every sequence of calls, on the open capture and on earlier ones, with every failure: completed sections tile the file from its first length, and their bytes never change |
| SqlCapture.Store | internal/databaseaudit/capture.go:92-99 | a successful capture stores exactly the one-shot redaction of the data |
| SqlCapture.CaptureSql | internal/databaseaudit/capture.go:79-101 | end to end: the section can be opened, holds the redacted text, and the result describes it; a failure leaves the committed bytes alone |
| SqlCapture.PreviewSql | internal/databaseaudit/capture.go:102-112 | the preview without a file is described in the same way |
| SqlCapture.DescriptionIsUnique | internal/databaseaudit/capture.go:72-78 | the description determines the result, so both ways give the same preview and flags |
| Authorization.BatchAgreesExactlyWhen | internal/service/authorization.go:246-326 | for every snapshot, user and request, the batch decision equals the single one, reason included, if and only if not (user found and (no resource named, or a super-admin with a resource and no action)) |
| Authorization.BatchDisagrees | internal/service/authorization.go:283-297 | a super-admin who names no action is let through alone and refused in a batch |
| AuthorizationSingle.PermittedInGeneral | internal/rbac/checker.go:60-86 | without a resource only permissions on the action alone count |
| AuthorizationSingle.HasPermission | internal/rbac/checker.go:26-87 | the two loops decide: no matching deny, and an allow on the action and on the resource, or on both |
| AuthorizationSingle.HasDeny | internal/rbac/checker.go:89-126 | the loop finds a matching deny if and only if there is one and the resource is active |
| AuthorizationSingle.HasGrant | internal/rbac/resource_grant_checker.go:29-89 | granted if and only if the resource is active, no matching grant denies and one allows |
| AuthorizationSingle.NormalizedActions | internal/service/authorization.go:227-242 | exactly the trimmed non-blank actions, each once |
| AuthorizationSingle.Authorize | internal/service/authorization.go:118-203 | the loop with its early exit computes the declarative decision and reason |
| AuthorizationFacts.KeysApart | internal/rbac/batch.go:23-25 | types without NUL never share a key |
| AuthorizationFacts.KeysCollide | internal/rbac/batch.go:23-25 | types with NUL do |
| AuthorizationFacts.BatchIds | internal/rbac/batch.go:62-74 | the ids asked for of one type, each once |
| AuthorizationFacts.AppendUnique | internal/rbac/batch.go:213-226 | the union of both lists |
| AuthorizationFacts.LoadPlain | internal/rbac/batch.go:111-171 | loading a table records the truth about the requested ids of its type and nothing else |
| AuthorizationFacts.LoadHostAccounts | internal/rbac/batch.go:172-190 | the same for host accounts, with their parents |
| AuthorizationFacts.LoadDatabaseAccounts | internal/rbac/batch.go:191-209 | the same for database accounts |
| AuthorizationFacts.LoadGroups | internal/rbac/batch.go:88-110 | group names by id, once for permissions and once by kind, and both types marked active |
| AuthorizationBatch.LoadBatchFacts | internal/rbac/batch.go:76-211 | the whole index tells the truth about every request in the batch whose key no other resource in it has |
| AuthorizationBatch.ActiveAgrees | internal/rbac/active_resource.go:12-73 | active in the index if and only if active in the tables |
| AuthorizationBatch.PermissionAgrees | internal/rbac/batch.go:255-263 | matching a permission through the index is matching it through the tables |
| AuthorizationBatch.GrantAgrees | internal/rbac/resource_grant_checker.go:327-349 | the same for grants |
| AuthorizationBatch.GroupIdsFromPermissions | internal/rbac/batch.go:228-240 | every group a permission refers to is asked for |
| AuthorizationBatch.GroupIdsFromGrants | internal/rbac/batch.go:241-253 | every group a grant refers to is asked for |
| AuthorizationBatch.ForbiddenIsHere | internal/rbac/checker.go:89-126 | for an action allowed at large, a deny on the resource comes from a permission on that resource |
| AuthorizationBatch.BatchActionDecisions | internal/rbac/checker.go:251-323 | the flags say which requests have an allowed action, and one not forbidden on an active resource |
| AuthorizationBatch.BatchGrants | internal/rbac/resource_grant_checker.go:280-325 | the one-pass loop with its break decides the grant of every request |
| AuthorizationBatch.AuthorizeBatch | internal/service/authorization.go:246-326 | decision i is the batch rule applied to request i alone, unless another requested resource has its key |
| AuthorizationBatch.PlainTypesAreClear | internal/rbac/batch.go:23-25 | a type without NUL shares no key with another requested resource |
| AuthorizationAgreement.AuthorizeBothWays | internal/service/authorization.go:118-326 | run on the same snapshot and requests, the two loops give the same decision with the same reason if and only if the request is not of those two kinds, for every request whose key no other requested resource has |
| AuthorizationAgreement.GrantByCollision | internal/rbac/batch.go:23-25 | a type with NUL in it, asked for together with a host: the batch grants what a request on its own is refused |
| AuthorizationMeaning.RowsDecide | internal/service/authorization.go:118-326 | alone and in a batch, decision and reason are told by the stored rows, field by field: which permission allows or denies the action at large or the resource by itself, its parent or a group, and which grant |
| AuthorizationMeaning.DenyAtLargeBeatsAllow | internal/rbac/checker.go:60-86 | a permission that denies each asked action, or every action, without a resource is answered with action denied, whatever else allows it |
| AuthorizationMeaning.DenyHereBeatsAllow | internal/rbac/checker.go:89-126 | a permission that denies each asked action on the resource or a group of it keeps it from being allowed |
| AuthorizationMeaning.DenyGrantBeatsAllow | internal/rbac/resource_grant_checker.go:29-89 | one grant that denies the resource, its parent or a group of it keeps it from being allowed |
| AuthorizationMeaning.AllowedHasRows | internal/service/authorization.go:118-326 | whoever is allowed has a permission with effect allow or none for an asked action and, for a resource, a grant with effect allow on it, its parent or a group |
| AuthorizationMeaning.RowsAreEnough | internal/service/authorization.go:118-326 | one such permission and one such grant are enough where no row denies and the resource is there |
| AuthorizationMeaning.OthersAllowedExactlyWhen | internal/service/authorization.go:118-150 | of everyone else only a known super-admin is allowed, with a whole resource or none, and in a batch only with a resource and an action |
| CommandRecorder.TypeConcat | internal/recording/command.go:104-127 | how keys arrive in pieces does not matter |
| CommandRecorder.OutputsGrow | internal/recording/command.go:142-146 | output taken over extends the section of the pending command and no other |
| CommandRecorder.Recorder.constructor | internal/recording/command.go:65-93 | an empty recorder satisfies the invariant |
| CommandRecorder.Recorder.SubmitLine | internal/recording/command.go:238-267 | a finished line is dropped, swallowed as a secret, or taken up as a command, as typing says; nothing fails unless an outlet does |
| CommandRecorder.Recorder.ObserveInput | internal/recording/command.go:104-127 | with all outlets working nothing fails, and exactly the commands the keys spell are taken up |
| CommandRecorder.Recorder.ObserveOutput | internal/recording/command.go:129-166 | output of a pending command is appended to the output file and counted as its section, as far as the writer took it |
| CommandRecorder.Recorder.RecordDirect | internal/recording/command.go:170-211 | a direct command follows the pending one and reaches the sink at once |
| CommandRecorder.Recorder.FlushCurrent | internal/recording/command.go:269-300 | a command is filed, with its preview finished, only after its output is in the file; a failure leaves it pending or its filing done |
| CommandRecorder.Recorder.Deliver | internal/recording/command.go:289-299 | the record moves to the file log, and to the sink unless it is there |
| CommandRecorder.Recorder.Close | internal/recording/command.go:213-236 | after a clean close the numbers are 1..n, the sections tile the output, and file and sink agree unless a sink write was lost |
| CommandRecorder.Session | internal/recording/command.go:104-300 | in every sequence of calls with any failures the invariant holds; if no write is going to fail then none is reported to, file and sink hold exactly the commands given, in order, each once, and the section of each command holds exactly the output seen while it was pending |
| CommandTyping.PrintableKeysAdd | internal/recording/command.go:104-127 | printable keys are appended to the line |
| CommandTyping.ErasedKeysAreNone | internal/recording/command.go:104-127 | a printable key and the erase key after it, anywhere in any input, are as if they had not been typed |
| CommandTyping.LinesBecomeCommands | internal/recording/command.go:238-267 | an entered line becomes one command, with white space cut off its ends, tabs as spaces, and redacted; a line of white space becomes none |
| CommandTyping.TypedText | internal/recording/command.go:104-127 | so printable keys and Enter on an empty line give exactly the redaction of what was typed |
| CommandTyping.AnswersAreDropped | internal/recording/command.go:238-267 | with a prompt pending a line that is not blank is dropped and answers the prompt, a blank one leaves it pending |
| CommandTyping.AnswersDoNotShow | internal/recording/command.go:104-127 | two sequences of calls that differ only in the answer to a prompt give the same commands with the same outputs |
| CommandTyping.AnswersAreNotRecorded | internal/recording/command.go:104-300 | two recorders driven through such sessions, with outlets that work, end with the same commands in file and sink and the same sections of output |
| LineStream.TakesSorted | internal/recording/stream_redactor.go:104-121 | the machine that sees one line at a time sorts lines and keys as if it saw them all: a key runs from a line that opens it to the first that ends it, as one piece |
| LineStream.LinesGoOn | internal/recording/stream_redactor.go:54-68 | reading on from the unfinished line gives the lines of the joined text, and one more exactly at a cut between carriage return and line feed |
| LineStream.LinesExactlyWhen | internal/recording/stream_redactor.go:51-68 | with a policy that waits for lines, the lines taken from any frames are those of the joined text if and only if no cut parts a carriage return from its line feed |
| LineStream.EveryStream | internal/recording/stream_redactor.go:38-121 | for any policy, markers and cuts: the pieces join up to exactly the input, no line that opens a key goes out alone, a key goes out up to the line that ends it, and only the last piece can be an unfinished key |
| LineStreamKeys.Advance | internal/recording/stream_redactor.go:51-68 | a frame keeps the stream in step with the joined text, also when part of the current line is already out |
| LineStreamKeys.LetGo | internal/recording/stream_redactor.go:69-83 | letting part of a line go keeps it in step, if the policy knows that the line opens no key |
| LineStreamKeys.KeysDoNotDependOnFrames | internal/recording/stream_redactor.go:14-16 | under such a policy the keys of a stream, and the text between them, are those of the joined text for every cut that parts no line break |
| LineStreamKeys.TearsKey | internal/recording/stream_redactor.go:69-83 | letting part of a line go that then opens a key tears that key |
| LineStreamKeys.MakesKey | internal/recording/stream_redactor.go:69-83 | leaving of a line what opens a key makes one where there is none |
| LineStreamKeys.KeysWholeExactlyWhen | internal/recording/stream_redactor.go:14-121 | keys stay whole under every such cut if and only if the policy is careful |
| LineRedactor.Redactor.WriteLine | internal/recording/stream_redactor.go:104-121 | a line is handed on, opens a key, or joins the open key, which is handed on whole at its last line, as the function of the lines says |
| LineRedactor.Redactor.Write | internal/recording/stream_redactor.go:38-85 | a frame over the limit changes nothing; any other has exactly the effect of the function of the frames, and what comes out is the redaction of the new pieces |
| LineRedactor.Redactor.TakePrefix | internal/recording/stream_redactor.go:69-83 | outside a key, and only there, the clipped prefix that the policy names goes out |
| LineRedactor.Redactor.Flush | internal/recording/stream_redactor.go:87-102 | the unfinished line and then the open key go out, and nothing is held back |
| LineRedactor.Stream | internal/recording/stream_redactor.go:38-121 | over a whole stream the output is the redaction of the pieces of exactly the frames that do not overflow the buffer |
| LineRedactor.ShortStreamsAreTaken | internal/recording/stream_redactor.go:48-50 | frames that together stay within the limit are all taken |
| Retention.Store.SelectOldest | internal/store/dbstore_audit_retention.go:46-60 | the selection is the oldest claimable sessions, as many as the limit allows, each once |
| Retention.OlderIsStrict | internal/store/dbstore_audit_retention.go:48-52 | "older" orders any two sessions in one way, by the time they ended and then by id |
| Retention.Store.Claim | internal/store/dbstore_audit_retention.go:25-94 | a claim is of the oldest claimable sessions and is stored before anything is touched; a failed one may have been stored |
| Retention.Store.MarkFailed | internal/store/dbstore_audit_retention.go:157-187 | a claimed session is marked as failed at this time, unless the call fails without effect; no other is touched |
| Retention.TotalWithout | internal/service/audit_retention.go:184-189 | removing a directory lowers the total by its size |
| Retention.CleanupSession | internal/service/audit_retention.go:211-298 | rows go only after the directory and every object; whatever fails, only this session is touched, and the freed bytes and every failure are accounted for; a cleanup that fails ends with the session marked as failed, unless the marking or the deletion of the rows failed too |
| Retention.SafeThen | internal/service/audit_retention.go:137-151 | safety of two stretches gives safety of both together |
| Retention.ClaimIsFresh | internal/store/dbstore_audit_retention.go:142-155 | a claim within a pass never returns a session that the pass has claimed before |
| Retention.ClaimIsOldest | internal/service/audit_retention.go:163-181 | claims for the quota, one at a time over the whole pass, go oldest first |
| Retention.ExpiredPhase | internal/service/audit_retention.go:121-151 | the sessions worked through are exactly those the claim returned, the oldest expired ones within the batch |
| Retention.QuotaPhase | internal/service/audit_retention.go:156-208 | the quota loop ends; exceeded is reported if and only if the tracked usage is above the quota; the tracked usage is the real one unless a deletion and the re-measurement after it both failed; without failures it stops above the quota only with the batch used up or no candidate left |
| Retention.RunOnce | internal/service/audit_retention.go:111-209 | over any failures: claimed counts the sessions claimed, each once; rows lost are the deleted ones plus deletions reported to fail; deleted rows were last; nothing of a session that was not claimed is touched; without a failed directory deletion the freed bytes are what disappeared; expired sessions and then quota sessions go oldest first, the latter only while above the quota; exceeded is reported if and only if the reported usage is above the quota; success is reported only if no call failed and every claimed session was deleted, and always if no call failed and every one could be cleaned up; every session that is gone had ended by the cutoff, or by now with a replay directory and for the quota, had nothing to recover and was under no fresh claim; and once a pass succeeds with room in its batch, no such session that ended by the cutoff is left |
| SystemSettings.AcceptableMeansItself | internal/service/system_setting.go:555-586 | accepted settings read back as themselves |
| SystemSettings.ChangedFieldsAreExact | internal/service/system_setting.go:432-483 | no field is listed if and only if nothing differs; a change is hot-reloadable if and only if the captcha field alone differs |
| SystemSettings.StepKeeps | internal/service/system_setting.go:215-302 | every step of every bootstrap and update, in any interleaving, keeps the invariant |
| SystemSettings.HistoryIsKept | internal/store/system_setting.go:92-144 | the history is only appended to |
| SystemSettings.EffectiveIsARevision | internal/service/system_setting_bootstrap.go:87-129 | in every interleaving the effective settings are the history's entry under the effective revision |
| SystemSettings.NoRestartPending | internal/service/system_setting.go:350-366 | if no restart is reported pending then the desired settings are in effect, also when the row was loaded any time before the effective pair is read |
| SystemSettings.StepForwardExactlyWhen | internal/service/system_setting.go:296-299 | a step keeps the revision in effect from going down if and only if it is no publication or publishes a revision not older than the one in effect |
| SystemSettings.OnlyUpExactlyWhen | internal/service/system_setting.go:282-300 | over every run the revision in effect only goes up if and only if every publication in it meets that guard |
| SystemSettings.NeverGoesBack | internal/service/system_setting.go:282-300 | so it only goes up in every run in which each publication is still of the stored revision |
| SystemSettings.OvertakenGoesForward | internal/service/system_setting.go:282-300 | a run in which a publication was overtaken by a stored revision and still goes forward |
| SystemSettings.RevisionGoesBack | internal/service/system_setting.go:282-300 | a run in which a publication after that of a later revision puts the earlier one back into effect |
| SystemSettings.ServerAgreesExactlyWhen | internal/service/system_setting.go:282-300 | in every interleaving the running server has the captcha switch of a stored revision, and has the one in effect if and only if that revision and the effective one agree on it |
| SystemSettings.UnpublishedExactlyWhen | internal/service/system_setting.go:283-294 | a hot reload that reached the server and is not published leaves it with the switch in effect if and only if the effective settings had it already, which they have not when they are those the update was made from |
| SystemSettings.ServerLeftBehind | internal/service/system_setting.go:283-294 | a run that ends with nothing under way and the server apart from the published settings |
| SystemSettings.HotReloadKeepsTheRestExactlyWhen | internal/service/system_setting.go:282-300 | a hot reload leaves the other fields in effect if and only if they agreed with the settings the update was made from; in particular if no restart was pending |
| SystemSettings.HotReloadLetsColdThrough | internal/service/system_setting.go:282-300 | a run in which a hot reload puts a change into effect that was waiting for a restart |
| SettingsUpdates.RiskyExactlyWhen | internal/service/system_setting.go:485-530 | a change asks for confirmation if and only if it gives up something: recording, command recording, the captcha, a redaction, required TLS, retention days, replay quota or message size, or records input, lets sessions go unrecorded or shows a longer preview |
| SettingsUpdates.StoredMeansAccepted | internal/service/system_setting.go:532-586 | a row of accepted settings means these settings, which are within the bounds |
| SettingsUpdates.StoredIsInBounds | internal/service/system_setting.go:368-430 | in every run without other writers every stored revision is within the bounds |
| SettingsUpdates.UnconfirmedProtects | internal/service/system_setting.go:249-253 | in every such run in which no update is confirmed, no revision gives up what any earlier one protects |
| SettingsUpdates.StoredExactlyWhen | internal/service/system_setting.go:215-302 | from every reachable world an update that nobody interferes with is taken up if and only if it is within the bounds and names a revision, and is then stored, exactly as given, if and only if it names the stored revision, changes something, and is confirmed or gives nothing up |
| SqlConsole.TrimTwice | internal/service/sql_console_policy.go:24-28 | trimming is idempotent |
| SqlConsole.CompleteHasNoSemicolon | internal/service/sql_console_policy.go:49-95 | a scan that reaches the end met no semicolon outside quotes and comments, one that stops met one |
| SqlConsole.CutClean | internal/service/sql_console_policy.go:84-94 | a clean stretch stays clean when white space is cut off its end |
| SqlConsole.TrivialTrim | internal/service/sql_console_policy.go:104-109 | trimming does not change whether a text is only white space and comments |
| SqlConsole.HasContent | internal/service/sql_console_policy.go:104-124 | the loop finds content if and only if there is something besides white space and finished comments |
| SqlConsole.SingleStatement | internal/service/sql_console_policy.go:49-95 | the loop over index and quote state computes the one statement, or the error |
| SqlConsole.StripLeadingComments | internal/service/sql_console_policy.go:135-161 | the loop computes the text from its first word on |
| SqlConsole.FirstKeyword | internal/service/sql_console_policy.go:126-133 | the loop computes the first word in lower case |
| SqlConsole.TrimRightCuts | internal/service/sql_console_policy.go:24-28 | what trimming takes off the end is white space, character by character |
| SqlConsole.TrivialThenBlank | internal/service/sql_console_policy.go:104-124 | white space after trivia is trivia |
| SqlConsole.AcceptedIsSingle | internal/service/sql_console_policy.go:24-95 | an accepted statement has no semicolon outside quotes and comments; in the text it stands after white space, and what follows it is white space and then nothing, or a semicolon, white space and comments |
| SqlConsole.InspectTwice | internal/service/sql_console_policy.go:24-47 | inspecting an accepted statement again returns the same statement, kind and read-only flag |
| SqlConsoleTexts.TrivialExactlyWhen | internal/service/sql_console_policy.go:104-124 | what may follow the semicolon is exactly what is written as white space, line comments, the last of them perhaps unfinished, and finished block comments |
| SqlConsoleTexts.TextsAreInspected | internal/service/sql_console_policy.go:24-95 | for every text: it is invalid if and only if, trimmed, it is empty, longer than 65536 bytes, or not written as quoted texts, comments and bytes that are neither quote, # nor semicolon, alone or with a semicolon behind them; otherwise it is refused as several statements if there is something but trivia behind the semicolon, and else judged as the trimmed text of these tokens |
| SqlConsoleWords.KeywordReads | internal/service/sql_console_policy.go:126-161 | after any white space and finished comments the first word is the one written there, in lower case |
| SqlConsoleWords.FirstWordDecides | internal/service/sql_console_policy.go:34-46 | a statement that starts so with one of the eight writing words, in any case, is a write; with one of the six reading words, or with select unless it is unsafe, it is read-only; with any other word it is refused |
| SqlConsoleWords.TextIsTakenByItsFirstWord | internal/service/sql_console_policy.go:24-47 | the same of a whole text: whatever is let through has the kind and the read-only flag of its first word |

## Left out

- SagaSafety.DropsAreWarranted: names the families of cleanup and drop stages, which is what the condition against orphans gives; the two stages themselves need the stronger condition of StagesKeptExactlyWhen, and hold exactly under it.
- Idempotency keys of provisioning requests, the protection of provisioned rows against deletion, and the credential audit around the upstream calls.
- Validation and quoting of upstream names, hosts, passwords and grants; GRANT is one statement here.
- Clocks that disagree, and rounding in the lease window.
- The joins that select a user's permissions and grants, with their expiry: both ways of authorizing share them, so a snapshot holds their result.
- Cancellation and read failures during authorization: they end both ways with an error.
- Parameter redaction and `RedactSQL`, which only compose what is modelled.
- Decoding of terminal input into characters, stripping of control sequences and times in the command recorder; the redaction policies themselves are arbitrary functions.
- Other processes during a retention pass, and the content of error messages; ids of sessions are numbers, of which only the order matters.
- Recognition of selects that write or lock in the SQL console: an arbitrary predicate.
- The rest of the repository: network protocols, cryptography, web interface, object storage.
