# configd: a verified model

configd is a configuration daemon. Clients edit a candidate configuration in sessions, over
NETCONF or a command line, and commit it to the running configuration. This project models its
four hardest parts in Dafny and proves what they promise.

**Sessions and commits** (`Lock`, `Session`, `Nested`, `Requests`, `Effects`, `World`, `Projection`, `Flight`, `Shape`,
`Guarantees`, `Progress`, `Scenarios`, and the classes in `SessionProcess`, `CommitManager`, `SessionManager`).
A session is one goroutine. While a set, a validation, a commit or a full read waits, it goes on serving
requests inside the request that waits, so its state is a lock, a candidate and a stack of suspended requests. `Session` gives the
state and what one request, one step and one arriving result do to it; the class
`SessionProcess.Process` updates the fields as the source does and is proved against those functions.
`Requests` says what each request does without them, of nodes, lock and what is under way.
`World` puts every session, the commit manager, the running tree and the EFFECTIVE session into one
transition system whose events may interleave in any order; the theorems of `Guarantees` are about
every run of it. `Nested` is the same run as one session sees it, and `Projection` connects the two.
`Flight` has the manager's flag and its goroutines apart, proves that never two of them are inside a
commit, and that what `World` makes of them is what they look like. `Scenarios` holds concrete runs of
the whole system that show what can go wrong. Fields called history (a set's `pid`, `handed`, `wiped`,
`before`, `start`, `delivered`, `log`, `origin`) are read by no step.

**edit-config** (`Choices`, `EditTree`, `EditOps`, `EditConfig`, `Rollback`, `Interrupted`, `Unfailing`, `Moving`,
`Contested`; section 7.2 of RFC 6241).
An edit tree is flattened into a list of operations and the list is run under a test-option and an
error-option. `EditTree.Flatten` and `EditOps.PerformAll` are the specification; the class
`EditConfig.Request` appends to its list while recursing with path slices that share backing arrays,
and is proved to leave exactly that list and that candidate. `Rollback` settles when the source's
remark "we can't rollback, but we can prevalidate which is the same result" is true of a request that runs
alone, and `Interrupted` when a request does run as it would alone although other requests are served in
its waits. Exactly when none of its operations can fail is settled by whether its client holds the lock,
whether commits move running meanwhile and whether loads may come: `Unfailing` (running stays), `Moving` (it
moves and the lock is held) and `Contested` (it moves and the session is free).

**Addresses** (`Text`, `Ipv6`, `Ipv6Parse`, `Normalize`, `Mac`, `Canonical`; section 2.2 of RFC 4291 and section 4 of
RFC 5952). The IPv6 printer with its index loops is proved equal to a specification that compresses
the leftmost longest run of zero groups; the specification is proved to round-trip through a reader of
the standard's text forms. Masking is proved bit by bit. `Canonical` describes each printed text by its
characters, and proves it the only one of that description.

**Paths and trees** (`Config`, `Expand`, `Load`, `ConfirmedCommit`). Abbreviated paths are expanded against
the schema; a loaded tree is merged into or replaces a candidate; a confirmed commit waits for its
confirmation (section 8.4 of RFC 6241).

A configuration is a set of explicit paths, closed under non-empty prefixes; a candidate is an overlay of
additions and deletions on the running tree. What the tree libraries do to them (`Config.SetPath`,
`DeletePath`, `Exists`, `View`) is an assumed contract. Client pids are neither 0 nor one of the two
reserved holders COMMIT (-1) and SYSTEM (-2).

## Where the code does less than it says

- Prevalidation is not rollback when a delete lies under a replaced node: `Rollback.PrevalidationOfTree` gives
  the exact condition for a request that runs alone, `Rollback.RollbackHidesFailure` an input that is answered
  without an error although an operation failed.
- Nor is it when the client does not hold the lock: another client's delete, served while the request waits,
  makes an operation fail and nothing is reported (`Interrupted.DeleteMeanwhileHidesFailure`).
  `Interrupted.RunsAloneExactly` says exactly when a list runs as it would alone, and `Unfailing.FreeNeverFails`
  exactly when no operation of a prevalidated list can fail, whatever other clients send: from the first
  operation on that waits no create follows, and the last set before each delete is below what is deleted.
  Under the client's own lock it is again that no delete is hidden by a replace (`Unfailing.HolderNeverFails`).
- A commit of another session that is stored meanwhile moves running, and the lock does not help against
  that: `Scenarios.CommitMeanwhileHidesFailure` is such a run, and `Moving.HolderNeverFailsMoving` says exactly which
  prevalidated lists cannot fail then: each node to be deleted is the candidate's own by the time, and each
  node to be created is hidden from running by a deletion; where other clients may send loads, which heed no
  lock, also after a wipe. `Contested.FreeNeverFailsMoving` is the exact condition without the lock.
- A load deletes the candidate before it asks for the lock, so a client without the lock empties the candidate
  (`Load.LoadForgets`), also under a commit that waits (`Guarantees.LoadLosesUpdate`). If that happens before the
  manager begins, the commit reads and commits the emptied candidate (`Guarantees.ReadsWhatItFinds`); if after,
  it drops a candidate it has not read (`Guarantees.DropsWhatItRead`). Both are exact.
- A load aimed at the EFFECTIVE session wipes it although SYSTEM holds its lock (`Guarantees.LoadBreaksAgreement`),
  and it stays out of step with running until a commit discards it (`Guarantees.EffectiveAgrees`, exact). The next
  accepted commit then makes running what has been put since the wipe, and drops everything else:
  `Scenarios.LoadLosesTheRest` is such a run. `Guarantees.SerialIffUndamaged` and `Guarantees.CandidatesReachRunning` say
  exactly when running is what the commits' effects, and what their candidates, make of it.
- A set checks the lock and then waits: the write may happen under another client's lock
  (`Session.WriterMayHaveLostTheLock`), though never under COMMIT (`Session.WritesAreUnlocked`).
  `Nested.LockAtTheWrite` says which lock it is, `Nested.WriterMayUse` and `Nested.HolderWritesUnderItsLock` exactly
  when it is one the client may write under.
- An accepted commit reaches running only if the commit library skips no node that differs: it answers with
  success all the same. `Guarantees.AcceptedReachesRunning` gives the exact condition, after a wipe of EFFECTIVE too.
- A rollback runs its silent confirm job before any check, so it keeps a pending confirmed commit exactly when
  that job does (`ConfirmedCommit.OthersAreBlocked`); a cancel that is refused may have lost the record
  (`ConfirmedCommit.RefusedCancelLosesRecord`). A rollback that the pending record blocks has loaded its revision
  into the candidate by then (`ConfirmedCommit.BlockedRollbackLoads` says exactly when,
  `ConfirmedCommit.BlockedRollbackEmptiesCandidate` shows an input).
- A confirming commit gives up the pending record before the commit is tried, so it stays given up when the
  commit fails (`ConfirmedCommit.FailedCommitStillConfirms`).

## Model

| member | source | states |
|---|---|---|
| Session.ServeKeepsValid | session/session_internal.go:812-884 | serving any request inside whatever waits keeps the lock and the stack consistent: the lock is COMMIT exactly when a commit or validation is suspended, nothing that writes or takes COMMIT is above one, and a waiting commit's candidate is the one handed over unless a load wiped it |
| Session.StepKeepsValid | session/session_internal.go:166-214 | the same for each operation that an edit-config or load carries out between waits |
| Session.ResumeKeepsValid | session/session_internal.go:153-163 | the same when a result arrives for the innermost waiting request |
| Session.DeliverKeepsValid | session/session_internal.go:788-805 | the same when the commit manager's answer arrives |
| Session.AtMostOneLockFrame | session/session_internal.go:604-643 | commits and validations never nest: at most one is suspended in a session |
| Session.ServeUnderLock | session/session_internal.go:788-797 | while one is suspended no request moves the lock, and the candidate changes exactly when a load first deletes it and there is something to delete |
| Session.StepUnderLock | session/session_internal.go:658-671 | no operation of an edit-config or load writes while one is suspended |
| Session.ResumeUnderLock | session/session_internal.go:788-797 | no set that resumes writes while one is suspended, and only the end of a validation releases the lock |
| Session.WritesAreUnlocked | session/session_internal.go:172-214 | every write on resumption happens while the lock is not COMMIT |
| Session.WriterMayHaveLostTheLock | session/session_internal.go:216-251 | a set that found the session free writes after another client has locked it |
| Nested.HolderFolds | session/session_internal.go:645-693 | over every nested run the holder of the lock is the first holder folded with the lock and unlock requests served outside COMMIT: commits and validations come and go without a trace |
| Nested.WhoHolds | session/session_internal.go:645-693 | who ends up with the lock: the one who had it and kept it, or found the session free, took it and kept it |
| Nested.LockAtTheWrite | session/session_internal.go:216-251 | whatever is served while a set waits, the set is undisturbed and writes under the lock so folded |
| Nested.WriterMayUse | session/session_internal.go:216-251 | a client may still use the session when its set writes if and only if no other client has taken the lock meanwhile and kept it |
| Nested.HolderWritesUnderItsLock | session/session_internal.go:216-251 | a client that holds the lock when it sets writes under its own lock if and only if it has not given it up, or has taken it again |
| Projection.RunIsTrace | session/session_internal.go:886-896 | every run of the whole system is, in each session but EFFECTIVE, a trace of what happened there, so what holds of every nested run holds of it |
| Session.StartRecordsLock | session/session_internal.go:604-618 | a commit or validation that starts takes COMMIT and remembers the holder it displaced |
| Session.ValidationRestoresLock | session/session_internal.go:610-643 | a validation leaves the lock and the candidate as it found them |
| Session.CommitRestoresLock | session/session_internal.go:771-805 | a commit leaves the lock as it found it; success drops the candidate, which is the one handed over unless a load wiped it, failure keeps it |
| Session.BeginRefinesSet | session/edit_config.go:354-457 | cutting an edit operation at its wait for validation does not change what it comes to |
| Session.ServeSystemOwned | session/session_internal.go:658-671 | no client request moves a session that SYSTEM holds, save a load that wipes it |
| Requests.RefusedToOthers | session/session_internal.go:658-671 | a set, delete, discard, validation, commit, edit-config or saved mark changes nothing in a session that another client has locked |
| Requests.Starts | session/session_internal.go:216-251 | otherwise a set, edit-config, read or validation writes nothing yet and waits, a validation under the COMMIT lock |
| Requests.MarksSaved | session/session_internal.go:702-708 | a session remembers whether it was last said to be saved, and nothing else changes |
| Requests.MovesTheLock | session/session_internal.go:645-693 | a lock request changes the holder exactly if the session is free, an unlock request exactly if it comes from the holder; nothing else changes |
| Requests.DeleteTakes | session/session_internal.go:253-258 | a delete changes the session exactly if its node shows, and then what shows no more is that node and what is below it |
| Requests.DiscardForgets | session/session_internal.go:728-734 | after a discard the candidate shows the running tree, whichever that is |
| Requests.LoadStarts | session/load.go:144-153 | a load that replaces leaves nothing that shows, whoever holds the lock; its paths are under way and what waits below waits on |
| Requests.CommitIsRefused | session/session_internal.go:755-786 | a client who may use the session is refused its commit if and only if the candidate shows every node exactly as running has it, or the disk is read-only and running has a node; else the COMMIT lock is taken and the candidate handed over as it is |
| Requests.ResumeWrites | session/session_internal.go:166-214 | a resumed set, edit-config or load writes if and only if its path was accepted and no program substitutes the value; then a node shows if it did before or is that path or above it, else the candidate is the one found at that moment |
| Requests.ResumeGoesOn | session/session_internal.go:166-214 | where each then is: waiting for the program, over, or at its next path or operation |
| Requests.WriteAtItsTurn | session/session_internal.go:166-214 | the same over every nested run: whatever is served while a set waits, it writes at its turn exactly so, into the candidate found then and under the lock folded until then |
| Requests.LoadComesToNext | session/load.go:158-173 | a load under way waits to set its next path exactly if that is to be set and its client may use the session at that moment; nothing is written meanwhile |
| Requests.LoadAlone | session/load.go:144-206 | a load that nothing interrupts leaves, as a suspended request, exactly the candidate that the walk over the loaded tree leaves |
| Lock.SwapThenRestore | session/session_internal.go:645-693 | giving up the caller's lock, taking COMMIT, and undoing both gives the first lock back |
| SessionProcess.Process.Lock | session/session_internal.go:645-656 | the lock is taken only when free; it is refused even to its own holder |
| SessionProcess.Process.TryLock | session/session_internal.go:658-671 | a session may be used when it is free or one's own |
| SessionProcess.Process.Unlock | session/session_internal.go:680-693 | only the holder releases the lock |
| SessionProcess.Process.SwapLock | session/session_internal.go:772-778 | the caller's lock, if any, is given up and COMMIT taken |
| SessionProcess.Process.RestoreLock | session/session_internal.go:775-778 | the deferred calls, last one first |
| SessionProcess.Process.Set | session/session_internal.go:216-251 | a set is refused, or waits for its path to be validated; it writes nothing yet |
| SessionProcess.Process.SetReturns | session/session_internal.go:166-214 | a validated set writes the candidate as it is then: its path and what is above it, exactly if the path was accepted and no program substitutes the value |
| SessionProcess.Process.Del | session/session_internal.go:253-258 | a delete by a client that may write removes the subtree at once |
| SessionProcess.Process.Validate | session/session_internal.go:604-640 | a validation swaps the lock and waits |
| SessionProcess.Process.ValidateReturns | session/session_internal.go:631-643 | it gives the lock back whatever its result |
| SessionProcess.Process.Commit | session/session_internal.go:755-797 | a commit starts exactly if its client may use the session, the candidate and running differ at some node, and the disk is writable or running empty; it swaps the lock and hands the candidate over |
| SessionProcess.Process.CommitReturns | session/session_internal.go:788-805 | success drops the candidate; the lock is given back either way |
| SessionProcess.Process.EditConfig | session/edit_config.go:749-777 | an edit-config by a client that may write puts its list of operations under way |
| SessionProcess.Process.PerformNext | session/edit_config.go:459-475 | the next operation of an edit-config, up to its wait |
| SessionProcess.Process.OperationReturns | session/session_internal.go:166-214 | an edit-config whose path has been validated sets it or waits for the program, and goes on unless it stops at a failure |
| SessionProcess.Process.LoadTree | session/load.go:144-153 | a load deletes everything first, whoever holds the lock |
| SessionProcess.Process.LoadNext | session/load.go:158-173 | a load at its next path, where the lock is asked for |
| SessionProcess.Process.NodeReturns | session/load.go:158-173 | a load whose path has been validated goes on whatever the result |
| SessionProcess.Process.ProcessReq | session/session_internal.go:812-884 | the dispatch of one request does what the request's own method does, in any nesting |
| World.NextKeepsInv | session/commitmgr.go:85-222 | every event of the system keeps the whole invariant: sessions, tickets, answers, the one job, the log of accepted commits and the effective view |
| World.RunKeepsInv | session/session_internal.go:886-896 | so does every run |
| World.CommitStartKeepsCore | session/session_internal.go:755-786 | a commit that starts gets a ticket of its own, and its session waits for it |
| World.CollectKeepsInv | session/session_internal.go:788-805 | a commit that collects its answer gives the ticket back |
| World.StoreKeepsInv | session/commitmgr.go:161-164 | storing the merged tree adds the commit to the log and the log still chains |
| World.DestroyKeepsInv | session/sessionmgr.go:139-153 | destroying a session never strands a commit |
| Guarantees.LocksOverRuns | server/server.go:104-110 | after any run: the lock is COMMIT exactly when one commit or validation is suspended, never two, and RUNNING and EFFECTIVE exist and belong to SYSTEM |
| Guarantees.TicketNeedsChange | session/session_internal.go:755-786 | a ticket is issued if and only if a client who may use its session asks to commit a candidate that differs from running at some node, and the disk is writable or running empty |
| Guarantees.TicketHasOrigin | session/session_internal.go:755-786 | over every run each ticket was issued by such a request |
| Guarantees.NoLostUpdate | session/session_internal.go:755-805 | a refused commit keeps the candidate; an accepted one drops what it handed over and what the manager read, exactly unless a load wiped it |
| Guarantees.RunMarks | session/session_internal.go:788-797 | over every run during which a commit waits, it is wiped exactly by a load or copy-config that comes to its own session |
| Guarantees.NoLostUpdateOverRuns | session/session_internal.go:755-805 | over every run, from the request to its answer, the candidate is still the one handed over if and only if no load or copy-config came to that session meanwhile (or it was as if wiped to begin with), and then an accepted commit has read it |
| Effects.ReplayReaches | session/commitmgr.go:157-162 | effects on nodes that differ, in any order, lead from one tree to another if and only if no node that differs is skipped |
| Effects.EffectsExist | session/commitmgr.go:157-162 | there always are such effects |
| Effects.ReplayFromNothing | session/commitmgr.go:157-162 | replayed on nothing, effects on nodes that differ lead to the target if and only if every node of the target is put |
| Guarantees.AcceptedReachesRunning | session/commitmgr.go:157-164 | storing an accepted commit makes running the candidate it read over the running tree it read if and only if no node that differs was skipped or, when a load has wiped EFFECTIVE, every node of that target has been put since |
| Guarantees.EntryReaches | session/commitmgr.go:157-164 | the same for every accepted commit of every run; and it leaves what its effects make of the tree it read if and only if EFFECTIVE was not wiped or every node they leave was put since |
| Guarantees.CandidatesReachRunning | session/commitmgr.go:85-184 | over every run whose commits act only on nodes that differ, running is at every moment what the accepted candidates, in completion order, make of the first running tree if and only if every commit so reaches |
| Guarantees.LoadLosesUpdate | session/load.go:144-153 | a load that arrives while a commit waits empties the candidate under it: what the commit would drop is no longer what it handed over |
| Guarantees.ReadsWhatItFinds | session/commitmgr.go:85-120 | over every run, an accepted commit has read the candidate handed over if and only if no load or copy-config came to its session before the manager began (or there was nothing to empty); else it has read, and commits, an emptied one |
| Guarantees.DropsWhatItRead | session/session_internal.go:788-805 | over every run, what an accepted commit drops is what it has read if and only if no load came after the manager began, or one had come before, or there was nothing to empty |
| Flight.AtMostOneLive | session/commitmgr.go:186-209 | with the loop's flag and the goroutines apart, never two goroutines are inside a commit, over every run |
| Flight.FlightRefines | session/commitmgr.go:186-209 | every such run is a run of the system with its one slot, so what is proved of those holds of it |
| Flight.OneCommitInFlight | session/commitmgr.go:85-209 | at any moment of any run at most one commit is in flight across all sessions, and running is still the tree it read |
| Flight.LoopKeepsFlag | session/commitmgr.go:186-209 | fed the messages of such a run the manager's loop has that flag, and has started every commit in flight |
| Guarantees.CommitsAreSerial | session/commitmgr.go:85-209 | running after any run is the accepted commits applied in completion order, each commit once: its effects replayed on the tree before it or, after a wipe of EFFECTIVE, what was put since on nothing |
| Guarantees.SerialIffUndamaged | session/commitmgr.go:85-209 | over every such run, running is at every moment the accepted commits' effects replayed in completion order if and only if no commit suffered from a wipe: a wipe is harmless exactly when every node the effects leave was put since |
| Guarantees.AnsweredOnce | session/commitmgr.go:211-222 | every commit request has a ticket or one answer, never both and never two answers |
| Guarantees.DestroyForgets | session/sessionmgr.go:139-153 | a session created under the name of one that was destroyed is new, and no other has changed |
| Guarantees.EffectiveAgrees | session/commitmgr.go:63-83 | over every run that ends with no commit applying its effects, the effective view equals running if and only if no load has wiped it since a commit last discarded its overlay, or running is empty |
| Guarantees.EffectiveShowsOrigin | session/commitmgr.go:157-162 | at any moment of any run the effective view is what was applied since the last discard, on running or, exactly after a load, on nothing |
| Guarantees.StoreKeepsEffectiveView | session/commitmgr.go:161-165 | running becomes what the effective session showed at the merge, and the effective view equals it when it is written if and only if no load has come since the discard, or it is empty |
| Guarantees.LoadBreaksAgreement | session/load.go:144-153 | a load aimed at EFFECTIVE, which SYSTEM has locked, wipes it; with no commit applying its effects the view then equals running only if running is empty |
| Scenarios.LoadLosesTheRest | session/load.go:144-153 | a concrete run: a client without the lock sends one load to EFFECTIVE, and the next accepted commit, which adds one node and skips none, drops the rest of running |
| Scenarios.CommitThrough | session/commitmgr.go:85-184 | from any world that is ready for it, a commit that nothing interrupts makes running what any given effects make of what the effective session shows |
| Progress.EveryCommitCanBeAnswered | session/commitmgr.go:186-222 | from every reachable state each waiting commit can be brought to its answer by internal steps alone: no deadlock |
| Progress.Drain | session/session_internal.go:199-210 | the requests nested above a commit can all be brought to their end, and the commit is not disturbed |
| Progress.FinishJob | session/commitmgr.go:85-184 | the commit under way can be brought to its answer |
| CommitManager.Manager.Run | session/commitmgr.go:186-209 | each request is started or refused, once, as the specification of the loop sorts them, and at most one more has been started than has completed |
| CommitManager.Manager.Apply | session/commitmgr.go:157-159 | an effect goes through the effective session's own requests |
| CommitManager.Manager.Commit | session/commitmgr.go:85-184 | a refused commit changes neither tree; an accepted one makes running what its effects made of it, which is what the candidate asks for if and only if they skip no node, and the effective view equal to it |
| SessionManager.Manager.Lookup | session/sessionmgr.go:47-65 | a session is open to its owner, to all if shared, to configd and to superusers; anyone else is denied |
| SessionManager.WhoFinds | session/sessionmgr.go:47-65 | a created session is found by everyone if it is shared, else by whoever has the same user, configd and superusers |
| SessionManager.Manager.Create | session/sessionmgr.go:90-125 | an existing session is joined under three conditions and never changed, each refusal exactly for its reason; an absent one is added |
| SessionManager.Manager.Destroy | session/sessionmgr.go:139-153 | a session goes exactly when the caller may access and use it, each refusal exactly for its reason; no other changes |
| SessionManager.Manager.UnlockAllPid | session/sessionmgr.go:190-203 | exactly the caller's locks are released; sessions held by others, SYSTEM included, do not change |
| Choices.ChoiceNodesToRemove | session/edit_config.go:31-43 | the set filled in place gains exactly the exclusions of the name |
| Choices.CaseNodesToRemove | session/edit_config.go:44-66 | the same for the branches of one choice |
| Choices.ExcludesIsExact | session/edit_config.go:31-66 | a node is excluded by another if and only if some choice, at any depth, has them in different branches |
| Choices.SeparatedSymmetric | session/edit_config.go:31-66 | exclusion is symmetric |
| Choices.NeverSeparatedFromItself | session/edit_config.go:540-558 | no node excludes itself |
| Choices.CheckIsPairwise | session/edit_config.go:540-574 | the check with its growing set accepts the children exactly when the non-deleted ones are pairwise compatible |
| Choices.ConflictIsFirst | session/edit_config.go:560-574 | a conflict names the first child that is not accepted after those before it |
| Choices.AcceptanceIgnoresOrder | session/edit_config.go:560-574 | acceptance does not depend on the order of the children |
| EditTree.RecordHasOrigin | session/edit_config.go:576-689 | each recorded operation belongs to a chain of nodes, as the schema's kinds alone define it: its path is each node's name, followed for a list entry by its key's value and for a leaf not of type empty by its value if it has one; its operation that of the nearest node of the chain that carries one, else the default |
| EditTree.AcceptedChildren | session/edit_config.go:540-574 | the children of a node are accepted exactly when none is excluded by one before it: neither is deleted, and some choice has them in different cases |
| EditTree.FirstExcludedIsNamed | session/edit_config.go:540-574 | else the first that is so excluded is named |
| EditTree.SiblingsInOrder | session/edit_config.go:516-530 | siblings are recorded in the order of the request, and the first fault is the one reported |
| EditTree.ChainIsRecorded | session/edit_config.go:576-689 | conversely each chain to a node that is not passed through is recorded under that path and operation |
| EditTree.PanicHasOrigin | session/edit_config.go:576-689 | a request is refused only for a node at fault that a chain leads to: another namespace than the schema's, excluded children, or an entry that does not exist |
| EditTree.FaultPanics | session/edit_config.go:576-689 | and it is refused for every such node |
| EditTree.UnsetOnlyByDefault | session/edit_config.go:444-452 | an unset operation is recorded only under an unset default |
| EditTree.RecordsExtend | session/edit_config.go:516-538 | the paths of a subtree extend the path of its node |
| EditTree.FlatteningIsOrdered | session/edit_config.go:516-538 | a delete or remove follows all records of its subtree, any other record precedes them, and no path is recorded twice |
| EditConfig.Append | session/edit_config.go:672-673 | append through a shared array never changes what the shorter slice reads |
| EditConfig.RemoveAt | session/edit_config.go:635-637 | removing a list key in place leaves every other child once, in order |
| EditConfig.Request.Add | session/edit_config.go:509-514 | a recorded operation keeps its own copy of the path |
| EditConfig.Request.TraversePostOrder | session/edit_config.go:516-522 | the children's records, then the node's |
| EditConfig.Request.TraversePreOrder | session/edit_config.go:524-530 | the node's record, then the children's |
| EditConfig.Request.TraverseSubtree | session/edit_config.go:532-538 | post-order exactly for delete and remove |
| EditConfig.Request.ValidateChoices | session/edit_config.go:560-574 | the first conflicting child, or acceptance |
| EditConfig.Request.TraverseContainer | session/edit_config.go:576-598 | a container without presence is passed through unless it is empty or deleted |
| EditConfig.Request.TraverseList | session/edit_config.go:600-650 | a list entry is named by its first child, which must be the key; without it only a deletion is recorded |
| EditConfig.Request.TraverseLeaf | session/edit_config.go:652-670 | a leaf is recorded under its path followed by its value, without it if it is of type empty or has none, and refused exactly in another namespace than the schema's |
| EditConfig.Request.Traverse | session/edit_config.go:672-689 | however slices share arrays, the caller's path reads as before and every recorded path is the node's true one |
| EditConfig.Request.TestAll | session/edit_config.go:691-699 | prevalidation passes exactly when every recorded operation passes Test on the candidate as it is |
| EditConfig.Request.PerformOps | session/edit_config.go:711-729 | uninterrupted, the loop leaves the candidate and the reported failures that the fold over the list gives |
| EditConfig.Request.EditConfig | session/edit_config.go:749-777 | the whole request, from the top-level choice check to the answer, uninterrupted |
| EditOps.NeverStopping | session/edit_config.go:711-729 | continue-on-error attempts every operation and reports exactly the failures in order; rollback-on-error attempts every operation and reports none |
| EditOps.StopsAtFirstFailure | session/edit_config.go:711-720 | stop-on-error leaves the state after the longest successful prefix and the one failing operation, which is reported |
| EditOps.OperationSucceeds | session/edit_config.go:354-475 | exactly when an operation succeeds under each test-option: what its test and its carrying out need of the candidate and the schema |
| EditOps.FailureKeepsCandidate | session/edit_config.go:372-395 | a failing operation leaves the candidate alone, except exactly a replace that deletes before its merge is refused |
| EditOps.TestOnlyKeepsCandidate | session/edit_config.go:471-473 | test-only never changes the candidate, for any list |
| EditOps.SetTouches | session/edit_config.go:354-457 | what one successful operation does to the existence of every path |
| EditOps.RunningAgreesWithReading | session/edit_config.go:711-729 | running a list that succeeds agrees, path by path, with reading off the last operation that touches the path |
| EditOps.PrevalidationIsExact | session/edit_config.go:768-774 | once every operation passes Test, all succeed in order, uninterrupted, if and only if each is harmless, a condition read off the list |
| Rollback.DeleteIsHarmless | session/edit_config.go:397-402 | a prevalidated delete meets its node exactly unless a replace above swept it away and nothing set below brought it back |
| Rollback.PrevalidationOfTree | session/edit_config.go:691-777 | for a request that names each data node once and that nothing interrupts, prevalidation means success in recorded order if and only if no delete is hidden by a replace |
| Rollback.PrevalidationWithoutReplace | session/edit_config.go:768-774 | uninterrupted, the source's remark is true of every request without replace that names each data node once |
| Rollback.RefusedExactly | session/edit_config.go:749-777 | an uninterrupted request is refused, and changes nothing, if and only if two top nodes exclude each other, a chain leads to a node at fault or, under rollback-on-error, an operation it asks for fails its test; else every recorded operation is performed |
| Rollback.RollbackAnswers | session/edit_config.go:749-777 | an uninterrupted rollback-on-error request is refused and changes nothing, or answers without a failure, truthfully exactly when no delete is hidden |
| Rollback.RollbackHidesFailure | session/edit_config.go:711-729 | a concrete request that is answered without an error although an operation failed |
| Interrupted.AloneIsPerformAll | session/edit_config.go:711-729 | the list run operation by operation leaves the candidate and reports the failures that the loop does |
| Interrupted.UnhinderedRun | session/session_internal.go:153-163 | over every run in which running stays, no load comes and the client holds the lock or the list does not wait, the suspended request leaves and attempts exactly what was left to be done |
| Interrupted.RunsAloneExactly | session/edit_config.go:711-777 | while running stays, and whatever other clients send short of a load, a request runs as it would alone if and only if its client holds the lock or the list does not come to wait |
| Interrupted.RollbackOverRuns | session/edit_config.go:768-777 | so, over every such run, a prevalidated request has all its operations succeed if and only if no delete is hidden by a replace |
| Interrupted.DeleteMeanwhileHidesFailure | session/session_internal.go:153-163 | a concrete free session, prevalidated request without replace and delete of another client for which an operation fails and nothing is reported |
| Interrupted.CommitMeanwhileHidesFailure | session/commitmgr.go:161-164 | the delete of a concrete request under its own lock fails exactly because running has moved while it waited |
| Scenarios.CommitMeanwhileHidesFailure | session/commitmgr.go:161-164 | a concrete run of the whole system in which another session's commit is stored while a client that holds its lock waits, and its prevalidated delete then fails |
| Unfailing.FreeNeverFails | session/edit_config.go:711-777 | in a session nobody has locked, whatever other clients send while running stays, no operation of a prevalidated list fails over any run if and only if from the first operation on that waits no create follows and the last set before each delete is below it |
| Unfailing.HolderNeverFails | session/edit_config.go:711-777 | under the client's own lock, while running stays and no load comes, no operation of a prevalidated list fails over any run if and only if no delete is hidden by a replace |
| Unfailing.RecordedListIsOk | session/edit_config.go:576-699 | every prevalidated request that names each data node once is flattened to a list these theorems apply to |
| Moving.HolderNeverFailsMoving | session/edit_config.go:711-777 | under the client's own lock, wherever commits of other sessions move running, no operation of a prevalidated list fails over any run if and only if each is robust: a delete's node is the candidate's own by then, a create's is hidden from running; where loads may come, also after a wipe in any wait |
| Contested.FreeNeverFailsMoving | session/edit_config.go:711-777 | the same in a session nobody has locked, whatever other clients send: if and only if the list is robust and, from the first operation on that may wait, no create follows and each delete is above whatever may have been set last |
| Ipv6.RunEnd | cmd/normalize/normalize.go:96-99 | the inner loop finds the end of a run of zero groups |
| Ipv6.LongestRun | cmd/normalize/normalize.go:92-110 | the index loop selects the leftmost longest run, or none if it is shorter than two groups |
| Ipv6.BestIsLeftmostLongest | cmd/normalize/normalize.go:92-110 | no run is longer than the selected one, and none as long is further left |
| Ipv6.RunIsZeros | cmd/normalize/normalize.go:97-99 | a run holds zeros only and ends at a non-zero group |
| Ipv6.Print | cmd/normalize/normalize.go:112-129 | the printing loop with its jump over the run produces the canonical text |
| Ipv6.Ipv6String | cmd/normalize/normalize.go:86-130 | an address of sixteen octets prints as its canonical text, anything else as a question mark |
| Ipv6Parse.RoundTrip | cmd/normalize/normalize.go:86-130 | reading the canonical text by the standard's text forms gives every address back |
| Ipv6Parse.PrinterIsInjective | cmd/normalize/normalize.go:86-130 | different addresses print differently |
| Normalize.CanonicalShape | cmd/normalize/normalize.go:107-115 | at most 39 characters and at most one "::" |
| Canonical.RenderHasNoLeadingZeros | cmd/normalize/normalize.go:112-129 | in the text of an IPv6 address no zero that starts the text or follows a colon is followed by a digit, and every digit is in lower case |
| Canonical.CanonicalExactly | cmd/normalize/normalize.go:86-130 | a text is the printed one if and only if it reads as the address, is in lower case, has no leading zeros, and compresses the leftmost longest run of two or more zero groups (section 4 of RFC 5952) |
| Text.ValueOfNumeral | cmd/normalize/normalize.go:144-151 | reading a printed number gives it back |
| Text.NumeralIsShortest | cmd/normalize/normalize.go:126-127 | a printed number has no leading zero |
| Canonical.NumeralIsOnly | cmd/normalize/normalize.go:126-127 | the printed number is the only lower-case text of its value without a leading zero |
| Normalize.NumbersAreCanonical | cmd/normalize/normalize.go:144-151 | 64-bit numbers normalise alike exactly when equal, and once is enough for every string |
| Canonical.NumberBecomesShortest | cmd/normalize/normalize.go:144-151 | a 64-bit number becomes that text, any other token stays |
| Normalize.BitOfMask | cmd/normalize/normalize.go:246-247 | masking keeps exactly the first n bits |
| Normalize.MasksCompareBits | cmd/normalize/normalize.go:246-247 | two masked addresses are equal exactly when the first n bits agree |
| Normalize.PrefixesAreCanonical | cmd/normalize/normalize.go:219-250 | two prefixes, however written and of whatever length, normalise alike exactly when their lengths are equal and that many bits agree, in either family |
| Canonical.PrefixBecomesMasked | cmd/normalize/normalize.go:219-250 | a prefix becomes the text of its masked address, a slash and the shortest text of its length; a token that is no prefix stays |
| Normalize.PrefixIsIdempotent | cmd/normalize/normalize.go:182-250 | normalising a prefix again changes nothing, for every string and either family |
| Normalize.AddressIsIdempotent | cmd/normalize/normalize.go:153-275 | the same for an address with or without a length |
| Canonical.AddressesAreCanonical | cmd/normalize/normalize.go:153-275 | addresses with or without a length normalise alike exactly when the addresses are the same and the lengths the same number; what cannot be read stays |
| Canonical.FamiliesApart | cmd/normalize/normalize.go:153-275 | each family leaves a token of the other alone |
| Normalize.V6Qualifies | cmd/normalize/normalize.go:232-236 | a reader of the standard's IPv6 text forms is a parser the theorems apply to |
| Normalize.V4Qualifies | cmd/normalize/normalize.go:196-199 | so is a reader of dotted quads |
| Canonical.DottedIsOnly | cmd/normalize/normalize.go:196-199 | an IPv4 address is four shortest decimal numbers between dots, and that text only |
| Mac.ParseMac48 | cmd/normalize/normalize.go:66-80 | six hexadecimal bytes between colons, with or without leading zeros, and nothing else |
| Mac.NormalizeMac | cmd/normalize/normalize.go:132-142 | a token that stands for a hardware address becomes its canonical text, any other stays |
| Mac.MacTextReads | cmd/normalize/normalize.go:66-80 | the canonical text of any octets reads as those octets and no others |
| Mac.MacTextIsInjective | cmd/normalize/normalize.go:132-142 | different octets have different texts, of whatever length, with no assumption about a parser |
| Canonical.MacTextIsOnly | cmd/normalize/normalize.go:132-142 | the text of a hardware address is in pairs of lower-case digits, and is the only such text that reads as it |
| Mac.ColonsQualify | cmd/normalize/normalize.go:134-136 | a reader of six, eight or twenty two-digit bytes between colons is a parser the theorems apply to |
| Mac.MacsAreCanonical | cmd/normalize/normalize.go:132-142 | tokens normalise alike exactly when they stand for the same address, and once is enough |
| Expand.CollectMatches | server/dispatcher.go:2205-2223 | the loop over the children collects what the scan specifies, stopping at an exact name |
| Expand.ExpansionIsExact | server/dispatcher.go:2119-2255 | an expansion succeeds with a path exactly when each name is an exact child or the only child it abbreviates, keys aside, and the values fit |
| Expand.OutcomeIsExact | server/dispatcher.go:2119-2255 | every outcome of an expansion, each error with its place and names included, is exactly what the names that match say, wherever the cursor is |
| Expand.ExpansionIsStable | server/dispatcher.go:2119-2255 | the length is kept, every word extends the word it came from, and any spelling in between, the result included, expands to the same path |
| Expand.ExpansionIgnoresOrder | server/dispatcher.go:2205-2222 | neither results nor errors depend on the order of the children or, with a negative position, on the prefix |
| Expand.ValidatePath | server/dispatcher.go:559-573 | accepts exactly the paths that the schema has, and names the first element it does not have |
| Expand.FullPaths | server/dispatcher.go:559-573 | a path expands to itself exactly when the check accepts it and it names no list key |
| Expand.ExpansionsAreFullPaths | server/dispatcher.go:2119-2255 | a path is the expansion of something exactly when it is such a full path; so every expansion is accepted by the check |
| Load.WalkAllLeads | session/load.go:173-198 | the walk asks exactly for the nodes with presence that are reached through nodes that are not default |
| Load.Session.SetIfMissing | session/load.go:158-173 | a node is set unless it lacks presence or exists; a refusal is recorded |
| Load.Session.PreOrder | session/load.go:175-195 | the recursive walk does what setting the listed paths one by one does |
| Load.Session.MergeTree | session/load.go:155-206 | a merge starts without errors and sets the paths of the whole tree |
| Load.Session.DeleteThenMerge | session/load.go:144-153 | a load merges into an emptied candidate, whoever holds the lock |
| Load.MergeTreeAdds | session/load.go:155-206 | a merge adds exactly the closure of what the tree asks for and takes nothing away |
| Load.MergesAccumulate | session/load.go:155-206 | merging a tree again changes nothing that shows, and two trees may be merged in either order |
| Load.LoadForgets | session/load.go:144-153 | a load leaves exactly what the tree asks for whatever the candidate was; to a client that may not write, nothing at all |
| Load.LoadReports | session/load.go:158-206 | only paths that cannot be set are reported, and every one that is missing afterwards is |
| ConfirmedCommit.NewCommitInfo | server/confirmed_commit.go:49-72 | a time-out is the default or a number from 1 to 2^32 - 1 |
| ConfirmedCommit.CommitStores | server/dispatcher.go:1083-1167 | a commit makes running what its candidate shows, and that candidate show running, exactly if it is let through, has something to commit and succeeds; else it changes neither |
| ConfirmedCommit.CommitLeavesRecord | server/dispatcher.go:1128-1147 | exactly the record each commit leaves: a confirmed one that succeeds and is scheduled its own, whatever its persist identifier; a confirming one none if the job gives it up; any other the one there was |
| ConfirmedCommit.CommitSetsTimer | server/dispatcher.go:1139-1147 | the timer is set exactly by a commit with minutes that succeeds and is scheduled |
| ConfirmedCommit.RollbackStores | server/dispatcher.go:834-898 | exactly what a rollback or cancel leaves of running and of every candidate |
| ConfirmedCommit.RollbackLeavesRecord | server/dispatcher.go:834-898 | and of the record and the timer: the silent confirm job first, then the one of a revert that comes to its commit |
| ConfirmedCommit.OthersDo | server/dispatcher.go:791-808 | a disconnect reverts exactly the pending commit of its own session that has no identifier; a confirm job touches nothing but record and timer |
| ConfirmedCommit.Dispatcher.PerformConfirmingCommitIfRequired | server/confirmed_commit.go:98-136 | a pending commit is confirmed, left alone, or blocks the operation |
| ConfirmedCommit.Dispatcher.ConfirmedCommitInternal | server/dispatcher.go:1083-1167 | a commit, up to the record or the timer in minutes that it leaves |
| ConfirmedCommit.Dispatcher.ConfirmSilent | server/dispatcher.go:971-983 | the silent confirm job gives up the record, or cancels the timer, as that job decides |
| ConfirmedCommit.Dispatcher.RollbackInternal | server/dispatcher.go:834-898 | a rollback, whose silent confirm job comes before every check and whose revision is loaded before its commit is checked |
| ConfirmedCommit.Dispatcher.CancelCommit | server/dispatcher.go:810-832 | a cancel, after its checks unless forced |
| ConfirmedCommit.Dispatcher.SessionTermination | server/dispatcher.go:791-808 | a disconnect reverts only the commit of its own session without a persist-id |
| ConfirmedCommit.OthersAreBlocked | server/dispatcher.go:834-898 | an event that is not authorised keeps the record if and only if it runs no confirm job that gives it up; then it keeps running too, and what else it changes is exact |
| ConfirmedCommit.BlockedRollbackLoads | server/dispatcher.go:841-873 | a blocked rollback changes the candidate if and only if its session exists and is unchanged, and the revision exists and is not what the candidate already was |
| ConfirmedCommit.BlockedRollbackEmptiesCandidate | server/dispatcher.go:841-873 | a concrete blocked rollback that empties its session's candidate |
| ConfirmedCommit.PendingIsGuarded | server/confirmed_commit.go:98-136 | over any run a pending commit is confirmed, replaced or reverted, and running changed, only if an event was authorised or ran a confirm job that gave the record up |
| ConfirmedCommit.PendingIsGivenUp | server/dispatcher.go:834-838 | the first such job that comes without authority does end the pending commit |
| ConfirmedCommit.RecordHasOrigin | server/dispatcher.go:1128-1147 | a pending record was there from the start or was made by a confirmed commit of its session that changed running; a commit with a time-out in minutes makes none |
| ConfirmedCommit.FailedCommitStillConfirms | server/confirmed_commit.go:124-129 | a confirming commit gives the record up even when the commit then fails |
| ConfirmedCommit.CancelReverts | server/dispatcher.go:810-898 | exactly when an authorised cancel reverts, and exactly when it gives the record up |
| ConfirmedCommit.RefusedCancelLosesRecord | server/dispatcher.go:834-848 | a cancel that is refused for uncommitted changes reverts nothing and has lost the record exactly if its silent confirm job gave it up |

## Left out

- The union, data, diff, schema, commit and YANG libraries: only the contracts named above are assumed; a set adds explicit paths and does not remove other cases of a choice or replace a leaf's value, a delete removes a subtree and does not prune empty parents, and defaults do not exist.
- Authorization, accounting, audit, logging and timing: every access is allowed, except in the session manager's lookup.
- Hooks, substitution and syntax scripts, archive files, the disk and the Perl jobs: what they answer is an input of an event or method.
- Contents of reads (`getstatus`, `gettree`, `getfulltree`, help, comparison): a read is a request that may wait and never changes anything.
- XML, JSON, RFC 7951 and JSON-RPC encoding, sockets, the client library and the command-line programs.
- EditConfig.Request.EditConfig: runs without the interleaving of its waits, as does EditConfig.Request.PerformOps; `Session` has the same list as a suspended request that other requests interrupt, and `Interrupted` says exactly when both come to the same.
- Interrupted.RunsAloneExactly: running stays the same, no load deletes the candidate, and, as in `Unfailing`, `Moving` and `Contested`, the client itself sends only reads meanwhile and no value is substituted by a program. When operations fail although running moves or loads come is settled there.
- Unfailing.HolderNeverFails: without loads; `Moving.HolderNeverFailsMoving` has them, with a running tree that moves.
- EditConfig.RemoveAt: works on a copy of the children, because edit nodes are values here; that the source shifts the shared array of the edit tree itself, which is walked once, is not modelled.
- EditConfig.Request.TraverseList: only the first key of a list is looked at, as in the source; a choice's shorthand branch is a single data node.
- EditOps.PrevalidationIsExact: the operation Test normalises its path first; here recorded paths are taken to be normalised, and Test's two path checks are one predicate.
- Guarantees.AcceptedReachesRunning: what the commit library does to the effective session is a list of effects on nodes that differ; that a node is skipped only with a warning is the library's affair.
- Guarantees.EffectiveAgrees: requests that SYSTEM sends to EFFECTIVE are single events, without the wait of their validation, which only EFFECTIVE's own loads and reads could use.
- Flight.AtMostOneLive: a goroutine that has completed and its answer to the session are one event, since it does nothing else any more.
- CommitManager.Manager.Commit: one commit without interruption; `World` has it in the steps between which other requests run.
- SessionManager.Manager.Destroy: looking at the lock and removing the session are one step here, as in `World`; the session's last request may race with them in the source.
- Load.LoadForgets: the lock does not change hands during a load here; `World` has loads whose sets are refused one by one.
- Load.LoadReports: whether the walk looks up existing nodes in the candidate before or during the merge depends on the union library, so both are covered and only the first has an exact list of errors.
- Progress.EveryCommitCanBeAnswered: says that the answer can always be reached; that the scheduler and external programs do reach it is not modelled.
- Normalize.PrefixesAreCanonical: holds of any parser that reads canonical text; the Go library's parser, which accepts more spellings of a group than the standard, is not modelled.
- NormalizeString, the negated forms and the forms that choose a family: thin wrappers; NormalizeString is not idempotent.
- Expand.ExpansionIsExact: for the negative positions that Expand and the command arguments use, as are stability and order; at a position of zero or more the prefix counts and the order of the children may matter, and `Expand.OutcomeIsExact` has the outcome.
- Expand.ValidatePath: what SchemaChild returns below lists and leaves is an assumed contract of the schema library.
- ConfirmedCommit.PendingIsGuarded: the revert by the expired timer of the external job is not an event; what a confirm job does, whichever request runs it, is an input.
- ConfirmedCommit.Dispatcher.RollbackInternal: loading an archive may be refused for reasons of its own; the candidate it leaves is an input.
