# Verification of Anima's kernel protocols

This project models the protocols and state machines in Anima's kernel and proves what
they keep. Protocols with an environment (sub-agents, crashes, timers, connection drops)
are state machines with an explicit step for everything the outside world may do, and the
theorems speak of every reachable state or of whole runs. Code that updates state in place
is a class whose methods are proved to take exactly those steps, or to compute a
specification function about which the theorems are proved.

| file | what it models |
|---|---|
| `Runs.dfy`, `Digraph.dfy`, `Options.dfy`, `Text.dfy`, `Splitting.dfy`, `Paths.dfy` | runs and invariants of a step relation; cycles and ranks in finite graphs; optional values; Python's view of white space and lines; splitting a string; where a path leads, and `normpath` |
| `SchedulerModel.dfy`, `Scheduler.dfy`, `Orchestrator.dfy` | the dependency scheduler: dispatch, concurrent sub-agents, one FIFO queue |
| `GitModel.dfy`, `Restoring.dfy`, `TierEnforcement.dfy`, `TierGaps.dfy` | git's listings; putting paths back, by names that git takes as patterns; the detect-and-revert wrapper over a git worktree, and the calls that get past it |
| `SelfReloadModel.dfy`, `SelfReload.dfy` | crash-safe source swap with a deadman timer |
| `VenvSwap.dfy` | its sibling for the virtual environment |
| `AuditChain.dfy` | the hash-chained, signed log |
| `RunStreamModel.dfy`, `RunStream.dfy`, `RunRegistry.dfy`, `RunSessions.dfy` | the replayable event stream, its resuming client, and the two together |
| `ContextWindow.dfy` | compression of an agent's message list |
| `TrackRecord.dfy` | the earned-autonomy ladder and its table |
| `UnitFloor.dfy`, `Operator.dfy`, `OperatorRuns.dfy` | reversible operations, their gates, and whole runs of them |
| `OwnedPaths.dfy`, `Trash.dfy` | owned paths and the trash life cycle |
| `CodeFix.dfy` | the code-fix file: printer and parser |

## Where the code falls short of its promise

The members named here show a failing case, say exactly when the property holds, or both;
where none is named, the contract of the method in question says what the code does.

- The worktree boundary holds exactly when no commit hides a change and every guarded path
  ends clean by the names that are restored (`BoundaryHoldsExactly`); if these names are no
  patterns and the commands succeed, exactly when every guarded path that is dirty is shown
  by the status listing as well (`BoundaryOfPlainNames`). Calls of these kinds get past it:
  - a commit that moves a clean file from outside the allowlist into it, because
    `git diff --name-only` names a detected rename by its new path only (`RenameHidesMove`);
  - a commit of a file whose name is an allowlisted one after a space, because the diff's
    output is stripped before it is read (`SpaceHidesCommit`);
  - an edit of a file that git has been told not to look at, by an index flag such as
    assume-unchanged or, if it is new, by an exclude pattern (`FlagHidesEdit`);
  - a move in the working tree to a path that is only intended to be added, because the
    parser expects the second path of a rename after the first status letter only
    (`IntentHidesMove`);
  - whatever makes the status command fail, which counts as a clean repository
    (`FailedListingHidesEdit`);
  - an edit whose entry is past the 50 000 characters to which `run_bash` cuts a command's
    output (anima/kernel/sandbox.py:17, 103-116), because the parser does not look at
    `truncated` (`CutHidesEdit`);
  - a lock left in the repository, because nobody looks whether a restoring command
    succeeds (`LockKeepsEdit`);
  - a new file named `*`, because git takes the name to be unstaged as a pattern and
    unstages everything, allowed work included (`StarUnstagesAll`, `AllowedWorkStays`).
- Of the live repository only the status is compared: what a tool commits there is not seen
  (the condition on HEAD in the contract of `Enforcer.Execute`).
- The bootstrap rule can be passed by committing the edit, by leaving the file untracked, or
  by leaving it as added in a conflict (`CommitEscapesBootstrap`, `ConflictEscapesBootstrap`,
  `BootstrapOfWholeListings`).
- A self-reload armed before the boot job has looked for a pending file can lose its
  deadman, and so can an environment swap, which then ends with nothing live
  (`SelfReloadModel.EarlyArmIsUnsafe`, `VenvSwap.EarlyArmIsUnsafe`). The safety theorems of
  both are for calls that come after that look. The server looks before it starts to answer
  calls (anima/api/app.py:283), so only other callers can meet this.
- The first liveness probe is not guarded by the deadline (`LateBootProbesOnce`).
- A failed second rename of the environment swap leaves nothing live and nothing armed
  (`FailedRenameStrands`, `StrandedIsFinal`), as the source's own comment admits.
- `verify` of the audit log says nothing about lines after one that does not parse
  (`GarbageHidesTheRest`), lets the first record carry any sequence number, and raises on a
  record that is no object or has no hash field.
- A payload whose canonical text changes when it is written and parsed, such as one with
  keys 2 and 10 that are numbers, is appended and then fails to verify (`AppendsVerify`).
- The stream client commits `last_seq` on the `id:` line, where section 9.2.6 of the WHATWG
  HTML Standard commits it when the event is dispatched. A drop between the two lines loses
  the event (`DropAfterIdLosesEvent`, `CompleteIffNothingLost`).
- `_safe_tail_start` promises the end of the list when there are fewer turns than asked
  for, and never a start within a turn. The code returns the start of the turns there are,
  and stops at index 1 wherever that is; `IsTailStart` says what it does. Compression is
  unaffected, because it gives up at index 1.
- The anchor that compression promises never to compress is cut to 400 characters, and by the
  16 of the quote's own opening at every further compression (`EveryListQuotesTask`).
- Restoring an operation does not always restore (`UndoneExactly`, `OnlyVerifiedRemainExactly`):
  a service's command may fail unnoticed, a unit file loses its carriage returns because it is
  read as text, and units that are enabled or disabled along with another one are left as
  that one was.
- The unit floor compares names as strings, while the file of a unit is found by joining the
  name to the directory as a path: "./sshd.service", an absolute path, or the drop-in
  "sshd.service.d/x.conf" is not refused (`PathsEscapeTheFloor`, `SshUnitIsReached`). Nor is
  the full name of a service whose short name has another suffix (`NetworkFooEscapes`), nor
  a unit whose file has a floor unit disabled along with it (`AlongReachesTheFloor`).
  `FloorHolds` gives the condition. The floor does not cover edits of the same file as a
  managed file either (`FloorGuardsUnitOperationsOnly`), and `set_default` rewrites the
  link of default.target, which is on the floor.
- The file operator's refusal of its own files compares normalised paths: a managed path
  that is relative, or begins with just two slashes, is not refused (`RefusedExactly`).
- The code-fix header has no way to carry a goal over a line break (`LongGoalIsLost`,
  `GoalSpills`), and content with other line breaks than newlines comes back with newlines;
  `RoundTrip` says exactly what survives. The parser's fallback, all unmarked lines, finds
  white space only (`NothingAfterHeader`).
- Two workspaces of one name that are trashed within a second share an entry, and the first
  one's place is forgotten (`SameSecondLosesPlace`). An entry with an unreadable manifest
  counts as infinitely old, and one whose manifest is not UTF-8 or not an object stops the
  reaping there (`MalformedStopsReaping`).

## Model

| member | source | states |
|---|---|---|
| Scheduler.YieldedThenQueued | anima/kernel/orchestrator.py:141-184 | in every reachable state, what has been yielded for an agent followed by what is still queued for it is exactly "running", its events as put, and "done" once it has finished |
| Scheduler.NothingAfterDone | anima/kernel/orchestrator.py:298-317 | once an agent is recorded as done the queue holds nothing more of it |
| Scheduler.ExitLosesNothing | anima/kernel/orchestrator.py:267-317 | when the loop exits because all is done, the queue is empty, every agent's stream is complete and in order, and the recorded output is the text it streamed or its failure notice |
| Scheduler.DispatchFollowsDependencies | anima/kernel/orchestrator.py:268-296 | a dispatched agent's snapshot holds the final output of each dependency, and "running" and "done" come after the dependency's "done" in the stream |
| Scheduler.DispatchedOnce | anima/kernel/orchestrator.py:275-317 | each id is announced and reported done at most once, exactly when it has been dispatched and completed |
| Scheduler.EveryIdCompleted | anima/kernel/orchestrator.py:261-267 | the counter reaches the length of the plan only if no id repeats and every id has completed |
| Scheduler.CompletedHasNoCycle | anima/kernel/orchestrator.py:268-274 | a plan with known dependencies whose tasks have all completed has no dependency cycle |
| Scheduler.NeverStalls | anima/kernel/orchestrator.py:267-317 | on a plan with unique ids, known dependencies and no cycle, whenever nothing can move everything is done, under any interleaving and with failing agents |
| Scheduler.CompletesIffWellFormed | anima/kernel/orchestrator.py:258-317 | the loop can complete a plan if and only if ids are unique, dependencies known and acyclic; and then every run that can go no further has completed |
| Scheduler.RunLength | anima/kernel/orchestrator.py:258-317 | the number of steps of any run is fixed by the events its agents emit, so the loop cannot run on without them |
| Scheduler.LastOfIdCounts | anima/kernel/orchestrator.py:261 | of plan entries with one id the last counts |
| Orchestrator.Orchestration.constructor | anima/kernel/orchestrator.py:259-265 | the loop's variables start as the machine's initial state; the order of the pending dict is that in which the ids first occur in the plan |
| Orchestrator.Orchestration.DispatchReady | anima/kernel/orchestrator.py:268-296 | one pass announces exactly the ready ones, of two that follow each other the one first whose id occurs first in the plan, and leaves none ready |
| Orchestrator.Orchestration.AgentStep | anima/kernel/orchestrator.py:141-184 | what a sub-agent puts on the queue, step by step, is the machine's step |
| Orchestrator.Orchestration.DrainOne | anima/kernel/orchestrator.py:306-317 | one queue read records and reports a sentinel, or passes the event on |
| Orchestrator.Orchestration.Run | anima/kernel/orchestrator.py:258-317 | for every schedule of the sub-agents the loop ends in a reachable state, and every sub-agent is what the rounds since its announcement have made of it, one round for each event read; not timed out, it has completed a well-formed plan with an empty queue; timed out on a well-formed plan, some agent was never let finish in a round since its announcement, so if every round lets every agent finish, an event has been read for every round |
| Orchestrator.UnfinishedWasNotLet | anima/kernel/orchestrator.py:141-184 | a sub-agent that has not finished has met no round since its announcement, the one of the last wait included, that let it finish |
| Orchestrator.TimedOut | anima/kernel/orchestrator.py:298-304 | so a wait that times out on a well-formed plan does so for an agent that no round let finish |
| Orchestrator.TimeOutIsNotAStall | anima/kernel/orchestrator.py:298-304 | on a well-formed plan the timeout strikes only while some agent is still running |
| GitModel.ParsePorcelain | anima/kernel/tools.py:535-553 | the index loop over the NUL-separated tokens computes the recursive reading of them |
| GitModel.DictionaryOfWhole | anima/kernel/tools.py:525-553 | when a listing is captured whole and has no rename in the working tree, splitting and parsing its text gives back its entries, with the old path of a rename as a deletion |
| GitModel.DictionarySays | anima/kernel/tools.py:535-553 | of such a listing the dictionary gives a path the code of its last own entry, else a staged deletion if it is the old path of a rename, else nothing |
| GitModel.StatusKeysAreDirty | anima/kernel/tools.py:525-553 | of such a listing the keys of the status dictionary are exactly the paths that look dirty to git |
| GitModel.NoIntentNoWorkRenames | anima/kernel/tools.py:538-552 | a listing has no rename in the working tree when no path is only intended to be added |
| GitModel.ReadIsSeenDirty | anima/kernel/tools.py:534-553 | whole or cut, without a rename in the working tree, a key of the dictionary is a path that looks dirty, but for names that end like the mark of the cut |
| GitModel.BeforeTheCutIsRead | anima/kernel/sandbox.py:103-116 | a path mentioned by the entries within the first 50 000 characters is read, whatever follows |
| GitModel.PastTheCutIsNotRead | anima/kernel/sandbox.py:103-116 | a path mentioned only by entries that begin at or past that limit is not |
| GitModel.LooksNew | anima/kernel/tools.py:1760-1762 | of a listing that is read as meant: for a path that HEAD has, the dictionary's code looks new exactly when the file is untracked or added in a conflict |
| GitModel.ListingLists | anima/kernel/tools.py:525-553 | every repository has a listing that meets the description of git's answer, so nothing proved of all listings is empty |
| Restoring.FirstDifferenceDecides | anima/kernel/tools.py:1847-1864 | names are restored in the order of the first character in which they differ, a name before those that go on after it |
| Restoring.RestoredExactly | anima/kernel/tools.py:589-602 | for any names, as git matches them and whether or not its commands succeed: a path that HEAD has ends clean exactly when it was clean or is taken from HEAD, and nothing later unstages it; another path exactly when it is unstaged and its own file is deleted |
| Restoring.PlainNamesEndClean | anima/kernel/tools.py:1863-1864 | if no name is a pattern and all commands succeed, exactly when it was clean or is one of the names |
| TierEnforcement.Repository.Rewind | anima/kernel/tools.py:1812-1837 | commits are undone by a soft reset exactly when their diff, as it is read, shows a path outside the allowlist, or fails |
| TierEnforcement.NameIsRead | anima/kernel/tools.py:1814-1821 | a name that the diff prints is read as printed, unless it has a space at an end |
| TierEnforcement.AllowlistMeans | anima/kernel/tools.py:497-586 | a path is allowlisted exactly if its first component is tests or docs, or its first two are anima and one of the five modules |
| TierEnforcement.BootstrapMeans | anima/kernel/tools.py:1731-1747 | a source file of a module is blocked exactly while there is no file directly in tests whose name is test_, the module, anything, and .py |
| TierEnforcement.LaterCodeDecides | anima/kernel/tools.py:1760-1763 | of a blocked path whose code has changed, the later code decides whether it looks new, and the earlier one only if it is clean now |
| TierEnforcement.Repository.CheckoutRestore | anima/kernel/tools.py:589-602 | for a name that HEAD has, all paths of HEAD that it matches get index entry and content from there; for another one, all that it matches leave the index and its own file is deleted; if git fails, nothing else changes |
| TierEnforcement.Repository.RevertViolations | anima/kernel/tools.py:1844-1848 | the violations found are restored one by one, in the order of their names |
| TierEnforcement.Enforcer.Execute | anima/kernel/tools.py:1783-1875 | for an arbitrary tool effect on both repositories: which of the four outcomes is reported, and the two repositories it leaves. With whole listings and plainly restored names, of the live repository of a linked worktree as of the worktree itself: of the protected paths exactly those that are dirty and not hidden are reported, and one is kept exactly if no commit that stands changed it and no edit of it is hidden. A commit outside the allowlist is undone and one inside it stands, if the diff names every changed path; what is not reported is left as the tool left it |
| TierEnforcement.FoundGuards | anima/kernel/tools.py:1750-1864 | for any repository, live or linked: restoring what was found keeps every protected path, a source file of a module without tests included, exactly under those conditions |
| TierEnforcement.SettledUndoes | anima/kernel/tools.py:1806-1837 | HEAD at the end, and when a call fails for a reset: by which paths the commits changed, not by what was read |
| TierEnforcement.Tier0EndsClean | anima/kernel/tools.py:1750-1764 | if the names found are restored plainly, a path outside the allowlist ends clean exactly when it was clean before the restoring or is shown by the two listings |
| TierEnforcement.ShownIsRead | anima/kernel/tools.py:556-570 | for any listings without a rename in the working tree, cut or not: a path that was clean is shown exactly when the later listing is read as far as it, and then it is dirty |
| TierEnforcement.ShownExactly | anima/kernel/tools.py:556-570 | of such listings captured whole it is shown exactly when it is dirty and its change is not hidden from git |
| TierEnforcement.KeptExactly | anima/kernel/tools.py:1783-1875 | any clean path keeps HEAD entry, index entry and content exactly when no commit that stands changed it, and it ends clean by the names restored |
| TierEnforcement.Tier0KeptExactly | anima/kernel/tools.py:1806-1864 | if the names found are restored plainly: a clean path outside the allowlist is kept exactly when no commit that stands changed it, and any dirt of it is shown |
| TierEnforcement.HidingCommitMeans | anima/kernel/tools.py:1812-1825 | a commit that stands changes a guarded path exactly when it moves it to a name that is read as allowlisted, or the path's name has a space at an end |
| TierEnforcement.BoundaryHoldsExactly | anima/kernel/tools.py:1783-1875 | the boundary holds for all clean paths outside the allowlist if and only if there is no such commit, and each of them ends clean by the names restored |
| TierEnforcement.BoundaryOfPlainNames | anima/kernel/tools.py:1783-1875 | if the names found are restored plainly: if and only if there is no such commit, and every dirty one is shown |
| TierEnforcement.BoundaryOfWholeListings | anima/kernel/tools.py:1783-1875 | and with listings captured whole, without a rename in the working tree: if and only if there is no such commit, and no change of a guarded file is hidden from git |
| TierEnforcement.BoundaryWithoutRenames | anima/kernel/tools.py:1783-1875 | when the diff names both sides of a rename, a clean path outside the allowlist without a space at its ends is kept exactly when it ends clean by the names restored |
| TierEnforcement.AllowedWorkStays | anima/kernel/tools.py:1750-1764 | allowlisted work outside modules without tests stays as the tool left it if no restored name reaches it; a new file keeps its content in any case, and its place in the index exactly then |
| TierEnforcement.BootstrapKeptExactly | anima/kernel/tools.py:1731-1764 | if the names found are restored plainly, a source file of a module without tests is untouched exactly when no commit that stands changed it and any dirt is shown with a code that does not look new |
| TierEnforcement.BootstrapOfWholeListings | anima/kernel/tools.py:1731-1764 | and with listings captured whole: exactly when no commit that stands changed it, it was not left untracked or as added in a conflict, and no change of it is hidden from git |
| TierGaps.RenameHidesMove | anima/kernel/tools.py:1814-1824 | a file of the kernel that a commit moves to the tests: there are answers of git, as described, with which the move stays |
| TierGaps.SpaceHidesCommit | anima/kernel/tools.py:1817-1825 | a committed new file in a directory named " tests" stays, for some answers of git |
| TierGaps.CommitEscapesBootstrap | anima/kernel/tools.py:1822-1825 | a committed edit of a module without tests stays, for some answers of git |
| TierGaps.ConflictEscapesBootstrap | anima/kernel/tools.py:1760-1763 | an edit of such a module that is left as added in a conflict stays, for any answers of git in a whole listing |
| TierGaps.FlagHidesEdit | anima/kernel/tools.py:534-553 | an edit of a kernel file that is marked assume-unchanged stays, for any answers of git |
| TierGaps.IntentHidesMove | anima/kernel/tools.py:538-552 | a kernel file moved to the tests, where it is only intended to be added, stays there: the parser reads the old path as an entry of its own |
| TierGaps.LockKeepsEdit | anima/kernel/tools.py:1863-1864 | an edit of a kernel file stays whenever the command that should restore it fails |
| TierGaps.StarUnstagesAll | anima/kernel/tools.py:601-602 | a new file named by a star has the kernel file unstaged, for any answers of git in whole listings |
| TierGaps.FailedListingHidesEdit | anima/kernel/tools.py:534-536 | an edit of a kernel file stays when the listing after it fails |
| TierGaps.CutHidesEdit | anima/kernel/sandbox.py:103-116 | with two hundred new files staged in an allowlisted directory, an edit of a kernel file stays: its entry is past the cut |
| TierGaps.CutDiffShowsTier0 | anima/kernel/tools.py:1814-1824 | a diff whose output is cut counts as a violation, since the line that marks the cut is no allowlisted path |
| SelfReloadModel.UnprovenIsCovered | anima/kernel/self_reload.py:390-438 | in every state reachable by steps, crashes between statements, respawns and firings, a HEAD that has passed no probe has the deadman armed for a proven commit and the pending file naming both |
| SelfReloadModel.ArmedIsRecorded | anima/kernel/self_reload.py:397-415 | an armed timer always has its pending record, reverts to the old commit of it, and that commit is proven |
| SelfReloadModel.BootResolvesItsOwn | anima/kernel/self_reload.py:478-507 | a boot disarms only the timer of the reload it read, and only with HEAD proven |
| SelfReloadModel.SingleFlight | anima/kernel/self_reload.py:391-395 | a reload can be armed only when no timer is armed and HEAD is proven |
| SelfReloadModel.HeadMatchesRecord | anima/kernel/self_reload.py:494-498 | as long as nothing outside the protocol moves HEAD, it is always one of the two commits of the pending record, and the third branch is dead |
| SelfReloadModel.EarlyArmIsUnsafe | anima/kernel/self_reload.py:478-492 | without the order "boot looks first", which the server keeps (anima/api/app.py:283), an unproven commit can end uncovered |
| SelfReloadModel.QuietIsSettled | anima/kernel/self_reload.py:478-510 | when only a crash or a new reload can still happen, a proven commit is running and the timer is off |
| SelfReloadModel.RunIsBounded | anima/kernel/self_reload.py:390-510 | a run with k crashes, new reloads and failed probes has at most a constant plus 20k steps |
| SelfReload.AwaitLiveness | anima/kernel/self_reload.py:500-510 | the probe loop ends; it passes exactly if some probe passes and those before it all end before the deadline, and gives up only at or after the deadline |
| SelfReload.SteadyProbesInTime | anima/kernel/self_reload.py:500-510 | of probes that each take as long, the k-th may be the first to pass in time exactly if the one before it, two seconds earlier, ends in time |
| SelfReload.CommitBeatsDeadman | anima/kernel/self_reload.py:96-102 | a boot begun within 150 s of arming decides within an interval and a probe of that, so before the 180 s of the deadman when a probe takes less than 28 s |
| SelfReload.LateBootProbesOnce | anima/kernel/self_reload.py:503-509 | a boot begun after its deadline makes exactly one probe, which may still commit |
| SelfReload.Host.ArmAndSwap | anima/kernel/self_reload.py:356-438 | a refused or failing call leaves HEAD, pending file and timer as they were; otherwise HEAD is new, pending file and timer name the old commit, and the process is gone; every statement is a machine step |
| SelfReload.Host.BootLivenessCommit | anima/kernel/self_reload.py:445-510 | a boot with HEAD at the new commit commits if and only if some probe passes and all before it end within 150 s of arming, and gives up only at or after that time; which of the four results is returned and what each leaves: committed and resurrected clear timer and file, the others touch neither |
| VenvSwap.OriginalSurvives | anima/kernel/venv_operator.py:352-401 | for swaps begun after boot has looked, and unless a second rename has failed: until a probe passes with the candidate, the original tree is under exactly one of its two names, and while it is moved aside the deadman is armed |
| VenvSwap.ArmedIsRecorded | anima/kernel/venv_operator.py:352-472 | an armed timer always has its pending file, and finds the original tree under one of its names |
| VenvSwap.FailedRenameStrands | anima/kernel/venv_operator.py:386-398 | a failed second rename that has been unwound leaves nothing live and nothing armed |
| VenvSwap.StrandedIsFinal | anima/kernel/venv_operator.py:325-401 | and so it stays: no step brings a tree back |
| VenvSwap.CrashBeforeDisarmIsHarmless | anima/kernel/venv_operator.py:386-398 | a crash after the failed rename but before the disarm still gets the original back |
| VenvSwap.EarlyArmIsUnsafe | anima/kernel/venv_operator.py:408-472 | a swap begun before boot has looked can end with the original aside, nothing live and no step ever possible again |
| VenvSwap.QuietIsSettled | anima/kernel/venv_operator.py:437-472 | when only a crash or a new swap can still happen, a proven tree is live and the timer off |
| VenvSwap.RunIsBounded | anima/kernel/venv_operator.py:325-472 | a run with k crashes and new swaps has at most a constant plus 19k steps |
| VenvSwap.Host.ArmAndSwap | anima/kernel/venv_operator.py:325-401 | the result of each failure and what it leaves; every statement is a machine step |
| VenvSwap.Host.BootCommit | anima/kernel/venv_operator.py:408-472 | a healthy boot clears timer, old tree and file; an unhealthy one touches nothing |
| AuditChain.Log.constructor | anima/kernel/audit_chain.py:173-196 | opening restores hash and sequence number from the last line that is not blank, or starts afresh when it is no record with a hash or there is none |
| AuditChain.Log.Append | anima/kernel/audit_chain.py:211-238 | the record hashes and signs its fields and names the last hash, and one more line holds it as it will be parsed |
| AuditChain.Log.Verify | anima/kernel/audit_chain.py:257-323 | accepts exactly the authentic chains: every record holds the digest of its fields and a signature of them that the key accepts, names the digest of the fields before it, and is numbered from the first on; otherwise names the record that ends the authentic part, or raises on it |
| AuditChain.ValidIffAuthentic | anima/kernel/audit_chain.py:257-323 | accepting record by record is the same as the chain being authentic as a whole |
| AuditChain.AppendsVerify | anima/kernel/audit_chain.py:173-238 | after any mix of appends and restarts the file holds one record for each append, numbered from 1; it verifies if every payload's canonical text survives being written and parsed, and only if, for any that does not, the very fields hashed and the fields parsed have the same hash |
| AuditChain.Binding | anima/kernel/audit_chain.py:88-99 | two valid chains that end in the same hash agree on length and on every hashed field, or a record of the one and a record of the other differ and have the same hash |
| AuditChain.MirrorBinding | anima/kernel/audit_chain.py:378-400 | the mirrored 32 digits fix the whole history, unless records of the two chains collide so, or the two last ones differ and are mirrored alike |
| AuditChain.GarbageHidesTheRest | anima/kernel/audit_chain.py:242-255 | whatever follows a line that does not parse is not read |
| AuditChain.BlanksArePassedOver | anima/kernel/audit_chain.py:242-255 | blank lines change nothing wherever they are |
| RunStreamModel.ReachableInv | anima/api/run_registry.py:77-126 | in every reachable state buffer numbers are 1 to n, what is pending, in flight and yielded are adjoining stretches of the buffer, and what the client knows of the run is exact |
| RunStream.SubscriptionIsExact | anima/api/run_registry.py:95-126 | from any starting number, interleaved with appends, exactly the events above it are yielded in order, and it ends only when the run is done and all have been |
| RunStream.InOrderAtMostOnce | anima/cli/main.py:157-215 | with drops after any line, what is yielded is an increasing selection of the run's outputs, and only events whose id was read just before a drop are missing |
| RunStream.FrameDropsLoseNothing | anima/cli/main.py:157-215 | with drops between frames only, it is a prefix without gap or duplicate |
| RunStream.CompleteIffNothingLost | anima/cli/main.py:178-206 | a client that has read the completion has yielded the whole run if and only if no drop came between id and data |
| RunStream.WhyItReturns | anima/cli/main.py:205-215 | it returns only after the completion, without a run id (and then nothing was yielded), or with its five reconnects used up |
| RunStream.ServedToTheEnd | anima/api/run_registry.py:103-124 | when the server has ended a stream and all of it has been read, the run is done and nothing of it is left to see |
| RunStream.ServingEnds | anima/api/run_registry.py:103-126 | once the run is done, every serving or reading step brings that end nearer |
| RunStream.DropAfterIdLosesEvent | anima/cli/main.py:178-183 | a run in which the client returns after the completion and has missed an event |
| RunRegistry.Run.Append | anima/api/run_registry.py:77-85 | the next number is assigned and the event buffered under it |
| RunRegistry.Run.Finish | anima/api/run_registry.py:87-93 | the terminal event is buffered and the run is done |
| RunRegistry.Registry.EvictExpired | anima/api/run_registry.py:65-75 | exactly the runs finished more than 300 seconds ago are dropped |
| RunRegistry.Registry.Get | anima/api/run_registry.py:60-63 | a run is found exactly until 300 seconds after it finished |
| RunRegistry.Subscriber.Advance | anima/api/run_registry.py:103-126 | one turn of the generator is one serving step |
| RunRegistry.StreamClient.Follow | anima/cli/main.py:157-215 | the loop over connections and lines computes the client of the model for any sequence of responses |
| RunRegistry.LinesRead | anima/cli/main.py:175-203 | what the lines of a connection make of the client: every output is yielded in order, and start, completion and last number are known exactly if there was such a line |
| RunRegistry.OneResponse | anima/cli/main.py:157-215 | after a failed request it exits; after a stream it returns exactly if the completion has been read, no run id is known or five reconnects are used up, and otherwise reconnects |
| RunRegistry.SixRequestsAtMost | anima/cli/main.py:205-215 | so it makes at most six requests |
| RunRegistry.LinesAreDeliveries | anima/cli/main.py:175-203 | reading the lines of a connection, and then its end, takes the stream machine along its own steps to the client that the loop computes |
| RunSessions.SessionsAreRuns | anima/cli/main.py:157-215 | whatever the server does in each session and wherever connections break, the client's loop ends in the client of a state that the stream machine reaches |
| RunSessions.FollowSessions | anima/cli/main.py:157-215 | so the loop from its start ends in the client of a reachable state, and if it has completed it has yielded the whole run exactly when no drop came between id and data |
| ContextWindow.SafeTailStart | anima/kernel/agent_loop.py:64-82 | for any list: from the index on there are only turns, at most as many as asked for, and as many as there are |
| ContextWindow.SafeCompressCut | anima/kernel/agent_loop.py:85-104 | for any list: the end of the last assistant turn with its tool results, 0 when there is none |
| ContextWindow.Compress | anima/kernel/agent_loop.py:107-203 | unchanged, or a list shorter by the cut: one user message, which quotes the first 400 characters of what the anchor said and gives the number of messages taken and the summary, and the rest verbatim; with a summary at most four turns are left after it |
| ContextWindow.CompressionKeepsTurns | anima/kernel/agent_loop.py:119-203 | from a well-formed list: what goes is whole turns, the last at the end of what goes, what stays is verbatim and well-formed, and the list is shorter by exactly the cut |
| ContextWindow.CompressionKeepsRecent | anima/kernel/agent_loop.py:119-133 | up to four turns at the end survive verbatim |
| ContextWindow.CompressionLeavesFour | anima/kernel/agent_loop.py:119-133 | with a summary at most four turns are left after the first message |
| ContextWindow.Run | anima/kernel/agent_loop.py:353-447 | which lists are sent, in every round and for a streamed answer, each the one before with its turn, compressed only above the threshold |
| ContextWindow.EveryListKeepsTurns | anima/kernel/agent_loop.py:356-447 | every list that a run sends, in any round or for a streamed answer and whatever was compressed, ends with the last four rounds' turns; and if the history is well-formed, so is the list |
| ContextWindow.EachListFollows | anima/kernel/agent_loop.py:356-447 | every list follows from the one before and the turn of the answer: as built up to 18 messages or without a summary, else with at most four turns after its first message, and then as built or summarized as above |
| ContextWindow.EveryListQuotesTask | anima/kernel/agent_loop.py:119-190 | the first message of every list is that of the history, or begins with a quote of at least the first 224 characters of what that one said, through up to twelve compressions |
| ContextWindow.HowManyAreSent | anima/kernel/agent_loop.py:356-447 | one list for each round, up to the first without tool calls, and one more for a streamed answer |
| TrackRecord.ClosedForm | anima/kernel/track_record.py:43-93 | over any history of scan cycles, successes are the sum over maximal runs of one branch holding of half the run's length, a window is open exactly while the last run is odd, and graduation is three successes |
| TrackRecord.LastOutcomeShown | anima/kernel/track_record.py:43-93 | the ladder shows the last cycle that saw the fix merged: its branch, its time and commit while a window is open, and whether the fix failed, has yet to hold or held |
| TrackRecord.NeverReverts | anima/kernel/track_record.py:43-93 | no cycle takes back a success or a graduation |
| TrackRecord.GraduationTakesSix | anima/db/__init__.py:782-814 | on the operator path graduation takes at least six verified outcomes |
| TrackRecord.Store.Get | anima/db/__init__.py:757-779 | a missing row reads as untrusted, a row without its branch |
| TrackRecord.Store.Update | anima/db/__init__.py:782-848 | the key's ladder takes the pure step, no other key moves, and nothing is written when nothing changes |
| TrackRecord.Store.UpdateAll | anima/db/__init__.py:782-848 | after any run of updates each key's ladder is the fold of its own outcomes |
| UnitFloor.ComputeFloorClosure | anima/kernel/unit_topology.py:121-148 | seed, listed units and the bare names of both passes; and whatever is in it is one of these, or the bare name of another member |
| UnitFloor.ClosureProtects | anima/kernel/unit_topology.py:121-164 | every seed or listed unit is refused under its own, its bare and its full name |
| UnitFloor.ProtectionFollowsTheUnit | anima/kernel/unit_topology.py:151-164 | among names without a slash that have a unit's suffix or no dot, whether one is refused depends only on the unit it stands for |
| UnitFloor.OtherSuffixEscapes | anima/kernel/unit_topology.py:151-164 | a name with another suffix may be refused while the full name of the same service is not |
| UnitFloor.PathsEscapeTheFloor | anima/kernel/arch/linux.py:550-564 | with a slash it does not: "./" and the name is another name for the same unit and file, and is not refused |
| Operator.Host.RunReversible | anima/kernel/operator.py:102-129 | a verified operation is kept; any other is undone |
| Operator.UndoneExactly | anima/kernel/operator.py:260-268 | undoing is exact if and only if: a service's state comes back, a unit file has no carriage returns, and the units enabled or disabled along with one were like it |
| Operator.Host.RunFileEdit | anima/kernel/operator.py:102-173 | the file has the new content if the validator passes, and otherwise nothing has changed |
| Operator.Host.RunServiceAction | anima/kernel/operator.py:239-268 | start, stop and restart: verified if it runs and the validator passes, a stop if it does not run; whether the service runs at the end, and nothing else changed |
| Operator.Host.RunUnitAction | anima/kernel/unit_topology.py:304-365 | author, delete, enable, disable and set_default: verified if the validator passes; file, enable states and default target at the end, after success and after putting back |
| Operator.Operator.Operate | anima/kernel/operator.py:282-354 | decides as the gate does, so runs exactly under the conditions of the three lemmas on what runs unapproved, or leaves everything alone; what runs files exactly one outcome under the operation's key |
| Operator.Operator.ExecuteApproved | anima/kernel/operator.py:357-383 | the same for approved operations, which skip switch and graduation |
| OperatorRuns.OnlyVerifiedRemain | anima/kernel/operator.py:102-129 | over any run of requests the managed state is the replay of the verified operations alone, if undoing is exact each time |
| OperatorRuns.OnlyVerifiedRemainExactly | anima/kernel/operator.py:102-129 | the condition is exact: at the first operation whose undoing is not, the managed state is another one |
| OperatorRuns.FloorHolds | anima/kernel/unit_topology.py:263-287 | no run of requests that name units plainly changes the enable state of a floor unit, if no unit file has it enabled or disabled along with another, nor its file, if no allowlisted path leads to it |
| OperatorRuns.AlongReachesTheFloor | anima/kernel/arch/linux.py:586-591 | the first condition is needed: disabling a unit off the floor disables any unit along with it that its file names for that |
| OperatorRuns.PathsReachTheFloor | anima/kernel/arch/linux.py:550-564 | so is the plain name: under "./" and its name, an approved author overwrites the file of any unit on the floor |
| OperatorRuns.SshUnitIsReached | anima/kernel/arch/linux.py:550-564 | so "./sshd.service" overwrites the unit of the SSH daemon with the floor's own seed |
| OperatorRuns.FloorGuardsUnitOperationsOnly | anima/kernel/operator.py:357-383 | an allowlisted file edit of a floor unit's file goes through |
| OperatorRuns.DefaultTargetStaysAllowed | anima/kernel/unit_topology.py:272-281 | an allowed default target stays in the allowed set |
| OperatorRuns.RefusedExactly | anima/kernel/arch/linux.py:437-447 | a path is refused if and only if it leads to one of the being's own files, is absolute and does not begin with just two slashes |
| OperatorRuns.ProtectedStays | anima/kernel/arch/linux.py:394-447 | over a whole run such a file is never changed, if all managed paths to it are refused ones, units are named without a slash, and it is not the file of a unit off the floor |
| OperatorRuns.OwnServicesUntouched | anima/kernel/operator.py:214-218 | the run state of the being's own service and of the SSH daemon is never changed, by any plain name of theirs |
| OperatorRuns.AutonomyIsEarned | anima/kernel/operator.py:282-343 | what runs without approval has six verified requests behind it that were run before, of the same kind, by the same action, on the same path or name |
| OperatorRuns.KeysTellClasses | anima/kernel/operator.py:282-637 | two operations share a row of the table exactly if they are of one user and of the same kind, action, and path or name |
| OperatorRuns.LadderStandsBy | anima/db/__init__.py:782-848 | after any run of requests the ladder of an operation counts the pairs of verified requests of its class, one right after another, and has graduated with three |
| OperatorRuns.FileEditRunsExactly | anima/kernel/operator.py:282-351 | an edit that nobody approved runs if and only if files are switched on, its path is allowlisted with a validator and not refused, and there are three such pairs |
| OperatorRuns.ServiceActionRunsExactly | anima/kernel/operator.py:401-470 | a service action if and only if services are switched on, the name is allowlisted with a validator, the action is one of three, the name in any form is not the being's own or the SSH daemon's, and there are three such pairs |
| OperatorRuns.UnitActionRunsExactly | anima/kernel/operator.py:528-637 | a unit operation only if it writes or deletes the file, by the same conditions; it is refused if and only if it is no boot-graph change and the unit is on the floor or the operation malformed, whatever the switch says |
| OwnedPaths.IsOwnedPath | anima/kernel/owned_resource.py:121-134 | true exactly for paths within one of the three roots |
| OwnedPaths.WithinMeans | anima/kernel/owned_resource.py:131-133 | the string test is the test on components |
| OwnedPaths.FloorMeans | anima/kernel/owned_resource.py:164-195 | what the inner floor refuses, said of components |
| Trash.OwnedResourceKernel.GcWorkspaceToTrash | anima/kernel/owned_resource.py:199-237 | the workspace and the entry it leaves, also when the entry exists, the move fails or the manifest cannot be written |
| Trash.OwnedResourceKernel.RestoreFromTrash | anima/kernel/owned_resource.py:239-263 | succeeds exactly with a readable manifest, a free place and the contents there |
| Trash.OwnedResourceKernel.ReapTrash | anima/kernel/owned_resource.py:265-302 | in the order of the directory, deletes the entries older than the cutoff up to the first whose manifest raises |
| Trash.ReapIsComplete | anima/kernel/owned_resource.py:281-300 | when no manifest raises, exactly the entries older than the cutoff go |
| Trash.ReapedByItsTime | anima/kernel/owned_resource.py:281-300 | an entry goes exactly if the time in its manifest is before the cutoff, without a manifest that of the directory, and always if the manifest cannot be read |
| Trash.MalformedStopsReaping | anima/kernel/owned_resource.py:285-294 | otherwise that entry and all after it stay, however old |
| Trash.StepConserves | anima/kernel/owned_resource.py:199-302 | with fresh entry names no step loses or doubles a workspace, but for the reaping of entries past the cutoff |
| Trash.RunConserves | anima/kernel/owned_resource.py:199-302 | the same balance over any run |
| Trash.GcThenRestore | anima/kernel/owned_resource.py:199-263 | trashing and restoring is the identity on the whole state |
| Trash.EntriesAreNamed | anima/kernel/owned_resource.py:217-222 | in one second two workspaces share an entry exactly if they share a name |
| Trash.ReapSparesRecent | anima/kernel/owned_resource.py:281-300 | an entry trashed at or after the cutoff is still there |
| Trash.SameSecondLosesPlace | anima/kernel/owned_resource.py:217-222 | without fresh names the first of two workspaces has no manifest that names its place |
| CodeFix.Parse | anima/cli/main.py:974-996 | the parser's loop computes the fold of its lines, fallback included |
| CodeFix.PrintedText | anima/manifester/writer.py:155-161 | the text of the file |
| CodeFix.ContentAfterHeader | anima/cli/main.py:974-996 | the first line that is not marked ends the header, and it and all after it, marked lines too, are the content |
| CodeFix.NothingAfterHeader | anima/cli/main.py:990-996 | when only white space follows the header the content is that white space, without the newlines it begins with |
| CodeFix.LastTargetCounts | anima/cli/main.py:983-987 | of several target lines in the header the last counts, whatever comes after the header |
| CodeFix.LastDescriptionCounts | anima/cli/main.py:983-989 | so it is of description lines |
| CodeFix.MissingLines | anima/cli/main.py:979-989 | without such lines there is no target and no description |
| CodeFix.RoundTrip | anima/manifester/writer.py:155-161 | for every target, goal and content: the parser returns target, stripped goal and stripped content if and only if the target is one stripped line, the goal has no line break but a carriage return at its end, and the stripped content has no line breaks but newlines |
| CodeFix.GoalSpills | anima/manifester/writer.py:155-161 | a goal whose second line is neither blank nor marked comes back as its first, and the rest opens the content, before the rest of the header |

## Left out

- Scheduler: intent classification, spawn events, the text of the dependency messages and
  the synthesis after the loop; cancellation of sub-agents. The 300 s wait is a step that
  may be taken whenever the queue is empty.
- Scheduler.DispatchFollowsDependencies: states what the snapshot holds, not how its text is
  laid out in the agent's messages.
- TierEnforcement: names that stand for directories (a file in the place of a directory, a
  repository within the worktree), paths that are not UTF-8, symbolic links, and a call from
  outside a repository or from below the top of the worktree. Git's answers are any that fit
  the model's description of its commands, copy detection off; a tool that tampers with
  git's configuration, hooks, attributes, objects or executable is not covered, nor what
  others write at the same time. A pattern does not bring back a file that is marked
  skip-worktree, while the model has it do so. A directory named like a test file counts as
  no test. Redaction and refusals before the wrapper are other code.
- TierEnforcement.Tier0KeptExactly: assumes that no violation was found in
  the live repository and that the reset did not fail; those returns leave the worktree as
  `Settled` says.
- SelfReload: preflight, the gate and the audit record of an arm. The revert script is taken
  to reset HEAD to the old commit and restart; it is not part of this model. Statements are
  atomic, one call of `arm_and_swap` runs at a time, HEAD does not move between preflight
  and arming, and disarming works.
- SelfReloadModel.HeadMatchesRecord: for HEAD moved by the protocol alone; the third branch is
  there for a HEAD that somebody else has moved.
- VenvSwap: building the candidate; an unreadable state file; failures of disarming,
  reaping and unlinking that the code logs and passes over. The revert script renames the
  old tree back.
- AuditChain: hash, signature scheme and JSON are parameters; canonical bytes are taken to
  be equal only for equal fields. A torn write shows up only as a line that does not parse.
  A record with some hashed fields missing is treated as having none, so a tail that has a
  sequence number but no payload would restore that number in the code and 0 here. Key
  files and locking are not modelled.
- RunStream: the text of a line; a drop is taken to lose the line it falls into. Lines that
  do not parse, authentication, waiting times and back-off. Output events are never of a
  control type.
- RunRegistry.Run.Finish: buffering the terminal event and marking the run as done are one
  call here and two steps in the stream machine.
- ContextWindow: the text sent to the summarising model, artifacts and events; a tool that
  raises. The final loop of compression that drops leading messages is never entered and is
  not written out.
- ContextWindow.Run: all that the model, the tools and the summariser answer is an input.
- TrackRecord: the general table of `update_track_record`, which keeps the branch and is
  the same with one more column; SQL; whether a branch is merged.
- Operator: commands that raise in apply or restore (writing to a directory's path is one),
  symbolic links, reloading of units, and units' dependency output, which comes in parsed.
  Lower case is that of ASCII letters. A service command takes a path for the unit of
  another kind, and enabling a path also links the file; neither is modelled.
- OperatorRuns.FloorHolds: which units are enabled or disabled along with another is an input,
  not read from the Also lines of its file; says nothing of drop-in directories, and keeps the
  default target apart from the link default.target, which `set_default` rewrites.
- OperatorRuns.OwnServicesUntouched: `systemctl` takes patterns, so an allowlisted name such as
  ss[h].service would reach the daemon; the model takes names literally.
- Trash: nested workspaces, failing deletes, manifests that lack single fields, and the
  database maintenance operations.
- CodeFix: file names, the record kept of a fix and the patching of the target are other
  code. Decoding errors are not modelled.
- `frontdoor.install_with_deadman` and `pam_operator.install_pam_edit_with_deadman`: weaker
  instances of the deadman pattern, which disarm before they restore.
- Regex and shell filters, redaction, network checks, sandboxing, routes, rendering,
  watchers, data sets and evaluation: foreign semantics or easy members.
