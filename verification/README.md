# Verified models of the add-on repository

Dafny models of the parts of the repository where order, failures or text make a wrong result easy, with proofs about
every input, every run or every reachable state. `dafny verify dfyconfig.toml` checks everything.

| part of the repository | files here |
|---|---|
| iac-runner job queue (`jobq.Queue`) | JobQueue, JobQueueProgress, JobQueueService |
| iac-runner run store: life of a run, concurrent updates, saved plans | RunLifecycle, MetaUpdate, PlanArtifacts, PlanLookup, PlanQueue |
| iac-runner output: redaction and paging | Redaction, OutputPaging, OutputMasking |
| workflow expression checker (`verify-opencode-gate.py`) | GateLexer, GateParser, GateGrammar, GateMeaning |
| ntfy YAML export | YamlExport, YamlRoundTrip |
| ntfy accounts, origins and options baseline | NtfyState, NtfyAccounts, NtfyCalls, NtfyRoles, NtfyBaseline, NtfyOptions |
| haos-monitor incident scan | Incidents |
| secrets-sync merge, guard and cycle | SecretsMerge, SecretsCycle, SecretsRuns |
| admin UI copy and drift check (`sync-admin-ui.py`) | AdminUiTree, AdminUiSync, AdminUiCheck |
| shared by several: options, characters and substrings, splitting at a separator | Wrappers, Strings, Lines |

How the source's forms are kept. Objects whose methods update fields are classes (`Tokenizer`, `Evaluator`, `Redactor`,
`WindowCollector`, `Admission`, `Accounts`, `Baseline`, `Supervisor`, `Tool`), and every method is proved equal to a
function on states; loops are loops. The results are then proved about those functions, and for each main operation a
theorem says what it gives in terms of its inputs alone, without the operation's own tests and constants. Where several goroutines or
processes interleave (the queue, updates under a file lock, plans with pulls and rotation between), the model is a step
relation over all interleavings, so a single method body does not exist; the queue's maps are a class as well. The plan
machine runs on top of the queue machine in `PlanQueue`, where its one-run-per-repository guard follows from the mutexes.
Exceptions and error returns are `None`, `Err` or a failed step. What the outside decides (exit codes, failed commands,
lost answers, backups, fetches, the order of directory entries) is an argument of the step, unrestricted.

Results that a reader of the code may not expect:

- A promotion whose command takes effect but whose answer is lost, or whose stash cannot be written, drops the user's
  rules without a stash (`NtfyRoles.LostPromotion`, at one input `NtfyRoles.LostExample`).
- A demotion in which the record of a restored rule cannot be written loses the rules behind it, because only a failing
  command puts the rest back (`NtfyRoles.DemotionConserves`, at one input `NtfyRoles.LossyDemotion`).
- The options baseline takes over rules of other owners when the database could not be read
  (`NtfyBaseline.ForeignSafeExactly` gives the exact condition, `NtfyBaseline.ForeignExample` one input).
- A document with a YAML key that is a word with a final line break never comes back: its text is unreadable or reads as
  another document (`YamlRoundTrip.BrokenNeverReturns`, `BrokenExample`, `NestedExample`; Python's `$` matches before a
  final line break). A key whose written form is longer than 1024 characters makes the text unreadable, because the
  printer never writes an explicit key, and so do `null` and `Null` in one mapping (`YamlRoundTrip.UnreadableExactly`);
  `null` alone comes back as another value (`YamlRoundTrip.ReadsBackExactly`).
- A missing operand makes the expression evaluator step behind the end marker, and nothing else does
  (`GateParser.Evaluator.Or`, `GateGrammar.OverrunNeedsOpenEnd`); it raises its own error before it reads there.
- A page of a log can mask more than the whole-file scan, never less (`OutputPaging.PageNeverReveals`,
  `OutputPaging.PageCanMaskMore`).
- The scanner and the fallback reader of the log differ exactly on lines that end in two carriage returns
  (`OutputPaging.ReadersAgree`).
- The plan lookup asks for one candidate, so an older plan is never tried, although a comment beside the loop speaks of
  an older retained plan (`PlanLookup.PriorPlanFile`).
- A tree with a file named `__pycache__`, or a directory named like a stamp or like bytecode, can be hashed but not
  copied (`AdminUiSync.CopySucceeds`, at one input `AdminUiSync.UncopiedExample`).

## Model

| member | source | states |
|---|---|---|
| JobQueue.StepInv | iac-runner/internal/jobq/queue.go:231-493 | Every step of every submitter, worker, acquirer and orphan keeps the invariant over semaphore, pending map, mutexes and wait group |
| JobQueue.ReachableInv | iac-runner/internal/jobq/queue.go:231-493 | The invariant holds in every state that any interleaving, with time-outs and panics, can reach |
| JobQueue.SlotsConserved | iac-runner/internal/jobq/queue.go:279-392 | The tokens in the semaphore are exactly those of the jobs that hold one, and never exceed `max_parallel` |
| JobQueue.NoReceiveBlocks | iac-runner/internal/jobq/queue.go:357-392 | A job that is ready to hand its token back never waits for an empty channel |
| JobQueue.WaiterHoldsNoSlot | iac-runner/internal/jobq/queue.go:357-392 | A job that waits for its repository mutex or for a slot holds no token |
| JobQueue.PendingCounts | iac-runner/internal/jobq/queue.go:426-446 | `pending[r]` counts the admitted unfinished jobs of r, stays within the bound, and has an entry exactly when there is one |
| JobQueue.MutualExclusion | iac-runner/internal/jobq/queue.go:203-221 | At most one job per repository executes, time-outs and panics included; lock identity is repository identity; no free mutex is ever unlocked |
| JobQueue.ReserveRelease | iac-runner/internal/jobq/queue.go:426-446 | A release undoes a reservation exactly, for every map without zero entries |
| JobQueue.Admission.ReservePending | iac-runner/internal/jobq/queue.go:426-434 | Reserves below the bound only, and changes nothing but the repository's count |
| JobQueue.Admission.ReleasePending | iac-runner/internal/jobq/queue.go:438-446 | Takes one back and drops the entry at zero |
| JobQueue.Admission.LockFor | iac-runner/internal/jobq/queue.go:203-221 | The same mutex for the same repository for ever; a new one only for a repository without one |
| JobQueueProgress.NoDeadlock | iac-runner/internal/jobq/queue.go:357-493 | While anything is unfinished some step is possible that needs neither a timer nor a failure |
| JobQueueProgress.StepDescends | iac-runner/internal/jobq/queue.go:231-493 | Every step lowers the rank |
| JobQueueProgress.RunsAreFinite | iac-runner/internal/jobq/queue.go:231-493 | n submissions take at most 36 n steps in any schedule |
| JobQueueProgress.RunsEndClean | iac-runner/internal/jobq/queue.go:554-566 | A run that cannot go on has an empty semaphore, an empty pending map, free mutexes and a wait group at zero, so `Drain` returns nil |
| JobQueueProgress.CanComeToRest | iac-runner/internal/jobq/queue.go:554-566 | From every reachable state ordinary steps alone lead to rest |
| JobQueueService.AdmittedExactly | iac-runner/internal/jobq/queue.go:279-283 | A submission takes a slot exactly when fewer than `max_parallel` jobs hold one, and nothing else changes; otherwise it is rejected |
| JobQueueService.ReservedExactly | iac-runner/internal/jobq/queue.go:285-296 | It is reserved exactly when fewer than that many admitted unfinished jobs have its repository; otherwise its slot goes back |
| JobQueueService.IdleQueueServes | iac-runner/internal/jobq/queue.go:231-493 | Whatever happened before, a submission to a queue with nothing else under way is admitted, executes and ends as succeeded, by its own steps alone |
| JobQueueService.FreshQueueServes | iac-runner/internal/jobq/queue.go:231-493 | In particular the only submission of a fresh queue |
| JobQueueService.DoneIsTerminal | iac-runner/internal/jobq/queue.go:340-549 | A worker that is done has stored a terminal status, whatever timed out, failed or panicked, unless a store update of its run failed |
| JobQueueService.RejectedLeavesNothing | iac-runner/internal/jobq/queue.go:279-333 | A rejected submission leaves no status, and a run directory only if removing it failed |
| RunLifecycle.StatusMoves | iac-runner/internal/jobq/queue.go:394-549 | One event changes a stored status only along queued, running, succeeded or failed, to interrupted at boot, or by rotation of a terminal run |
| RunLifecycle.RotationIsSafe | iac-runner/internal/runs/retention.go:116-170 | The unlocked check-then-delete never deletes a run whose stored status is queued or running at the time of the deletion |
| RunLifecycle.TerminalIsFinal | iac-runner/internal/runs/retention.go:58-170 | A terminal status never changes again over any run, crashes and boots included |
| RunLifecycle.SweepLeavesNoneLive | iac-runner/internal/runs/retention.go:58-102 | After a boot sweep without errors no run is queued or running |
| RunLifecycle.RotationTakes | iac-runner/internal/runs/retention.go:116-170 | Rotation chooses exactly the directories over age whose run has ended, or that have no metadata and are not just being made, and takes away nothing else |
| MetaUpdate.UpdatesAreSerial | iac-runner/internal/runs/store.go:254-291 | In every interleaving the file is what the committed updates give one after the other, in the order of their locks, each once |
| MetaUpdate.NoUpdateIsLost | iac-runner/internal/runs/store.go:254-291 | An update that returns a value met the serial state before it and left the one it returns; one that returns an error changed nothing |
| MetaUpdate.LoadsSeeSerialStates | iac-runner/internal/runs/store.go:222-239 | Every load, without a lock, returns a serial state |
| MetaUpdate.LoneUpdateGoesThrough | iac-runner/internal/runs/store.go:254-291 | With nobody else at the lock an update reads the file, and leaves and returns what its mutator makes of it |
| MetaUpdate.LoneErrorChangesNothing | iac-runner/internal/runs/store.go:254-291 | An error of the mutator leaves the file alone and gives the lock back |
| PlanArtifacts.PlanUsedOnce | iac-runner/internal/jobq/exec.go:177-325 | With pulls, rotations and panics anywhere a saved plan is used by at most one successful apply, unless its file was not removed and its name not cleared |
| PlanArtifacts.LeakyOnlyIfBothFail | iac-runner/internal/jobq/exec.go:312-325 | A plan is exempt from that only when its file was not removed and then clearing its name failed, or a panic came first |
| PlanArtifacts.TakenPlanIsFresh | iac-runner/internal/jobq/exec.go:262-303 | A plan that is taken is the newest succeeded one still stored for its repository and directory, and recorded the HEAD that this lookup read |
| PlanArtifacts.UsedHeadWasRead | iac-runner/internal/jobq/exec.go:262-325 | In every run the HEAD of every use is one that its apply read from git in an earlier state, between its list of the plans and its check of the file |
| PlanArtifacts.ConsumptionHidesExactly | iac-runner/internal/jobq/exec.go:312-325 | With any events of other runs, pulls and rotations between its two steps, a consumption leaves its plan findable exactly when it was, neither step worked and the directory is still there |
| PlanLookup.List | iac-runner/internal/runs/store.go:301-352 | The listed runs agree with every given part of the filter, each once, newest first and in directory order among equals; a run that agrees is missing only behind the limit (20 if none is asked, 100 at most), and then the listed ones come before it; an unreadable directory ends the list |
| PlanLookup.SortedIsOrdered | iac-runner/internal/runs/store.go:337-339 | The sort keeps every loaded run and gives the newest first |
| PlanLookup.PriorPlanFile | iac-runner/internal/jobq/exec.go:262-303 | The result is p exactly when the list works, git gives a HEAD, and the first newest succeeded plan of the repository and directory is p, names a file, has this HEAD, and its file is there |
| PlanLookup.LimitOneIsBest | iac-runner/internal/jobq/exec.go:263-270 | The one candidate of the sorted list is the first newest of the directory walk |
| PlanLookup.SearchFindsBest | iac-runner/internal/jobq/exec.go:262-303 | With nobody else moving, the step by step search of the plan machine ends with the candidate that the program's lookup finds in that state |
| PlanLookup.LookupTakesExactly | iac-runner/internal/jobq/exec.go:262-303 | Such a search takes exactly the newest stored succeeded plan of its repository and directory, if its name is stored, its HEAD is the one of git, and its file is there |
| PlanLookup.FinishedPlanIsStored | iac-runner/internal/jobq/queue.go:496-528 | A plan that ends well is stored as succeeded with its file and its name |
| PlanLookup.StartedPlanRecordsHead | iac-runner/internal/jobq/exec.go:231-250 | A plan records the HEAD of its repository before it runs |
| PlanQueue.QueuePlansAreReachable | iac-runner/internal/jobq/queue.go:203-392 | Whatever the queue does, time-outs and panics included, the plans are in a state that the plan machine reaches by itself, and a plan or apply is under way only while its job is in its window |
| PlanQueue.QueueGuardsPlans | iac-runner/internal/jobq/queue.go:203-221 | While a job is at work no other run of its repository has begun and not ended: the mutexes give the guard of the plan machine |
| PlanQueue.PlanUsedOnceUnderQueue | iac-runner/internal/jobq/exec.go:177-325 | Under the queue, in every interleaving, a saved plan is used by at most one successful apply, unless its file was not removed and its name not cleared |
| Redaction.SplitLossless | iac-runner/internal/runs/redact.go:261-280 | The segments concatenate to the line and are maximal runs of one kind |
| Redaction.SplitTokens | iac-runner/internal/runs/redact.go:261-280 | The index loop gives those segments |
| Redaction.RedactSegments | iac-runner/internal/runs/redact.go:202-236 | The loop writes and counts what the pass over segments does |
| Redaction.TokenPassIsFinal | iac-runner/internal/runs/redact.go:202-236 | No token of the output, alone or with its `=` run, has a credential shape; a second pass changes nothing |
| Redaction.ZeroCountUnchanged | iac-runner/internal/runs/redact.go:119-236 | The count of a line is zero exactly when the URL pass masked nothing and no token has the shape of a credential; with a pass that rewrites only what it counts, the line is then unchanged |
| Redaction.CleanLineUnchanged | iac-runner/internal/runs/redact.go:202-236 | The count of the token pass is zero exactly for lines without a credential-shaped token, and then the line is unchanged |
| Redaction.MaskIsPointwise | iac-runner/internal/runs/redact.go:202-236 | Exactly the credential-shaped values are replaced and all else keeps its place |
| Redaction.Redactor.Line | iac-runner/internal/runs/redact.go:119-141 | The PEM latch moves as specified and masks the whole line; otherwise the token pass applies |
| Redaction.Redactor.Observe | iac-runner/internal/runs/redact.go:147-158 | Lines outside the window move the latch without a look at their shape |
| OutputPaging.PageNeverReveals | iac-runner/internal/runs/output.go:224-245 | Every line of every page equals the whole-file redactor's line at that place or is the marker, and the page counts the whole file |
| OutputPaging.LatchSimulates | iac-runner/internal/runs/redact.go:119-158 | While the whole-file latch is set the page's latch is set with the same count, line after line |
| OutputPaging.PageCanMaskMore | iac-runner/internal/runs/redact.go:147-158 | A log on which a page masks a line that the whole-file scan shows |
| OutputPaging.MarkersSurviveEncoding | iac-runner/internal/runs/output.go:105-117 | An encoded record holds a PEM marker exactly when its line does |
| OutputPaging.WrittenIsFaithful | iac-runner/internal/runs/output.go:105-117 | Every record the writer made, whole or half flushed, meets the assumption of the paging results |
| OutputPaging.RecordHasNoBreak | iac-runner/internal/runs/output.go:105-117 | A written record never contains a line break, so records and lines of the log correspond |
| OutputPaging.WindowCollector.Add | iac-runner/internal/runs/output.go:224-245 | One line changes counters, window and latch as specified |
| OutputPaging.WindowCollector.CollectScanner | iac-runner/internal/runs/output.go:260-273 | Reports a line of too many bytes exactly when there is one; otherwise the collected window of the scanned lines |
| OutputPaging.WindowCollector.CollectReader | iac-runner/internal/runs/output.go:278-292 | The collected window of the lines as the fallback reads them |
| OutputPaging.ReadersAgree | iac-runner/internal/runs/output.go:260-292 | Scanner and fallback see the same lines exactly when none ends in two carriage returns |
| OutputPaging.WrittenLogReadsBack | iac-runner/internal/runs/output.go:260-292 | A written log, with a half-flushed rest, reads back as its records with either reader |
| OutputPaging.Bounds | iac-runner/internal/runs/output.go:142-189 | Past the guard no 64-bit offset overflows |
| OutputPaging.ReadOutput | iac-runner/internal/runs/output.go:142-189 | Clamps, guards, and returns the collected window whichever reader was needed; a page beyond the guard is empty with a total of zero |
| OutputPaging.WindowShows | iac-runner/internal/runs/output.go:224-245 | Of every file the window holds the lines from `lo` on, each at its place as the marker or as its own redacted text, and counts all lines |
| OutputPaging.PagesTileTheLog | iac-runner/internal/runs/output.go:142-189 | For every file and page size, pages 1 to ceil(total/size) show every line once and at its place; exactly the later ones are empty, and all report the same total |
| OutputMasking.KeysAreMasked | iac-runner/internal/runs/redact.go:54-158 | The scan of a whole log masks exactly the lines of its keys: an opening line, up to 256 body lines behind it, and the closing line behind those; every other line is shown as its own redacted text |
| OutputMasking.PagesMaskKeys | iac-runner/internal/runs/redact.go:119-158 | Every page masks those lines too, wherever it starts |
| OutputMasking.PagesShowTheRest | iac-runner/internal/runs/redact.go:119-158 | On every page a line is shown as its own redacted text if no key was opened before it, or none since a closing line |
| OutputMasking.ShownByShape | iac-runner/internal/runs/redact.go:16-48 | A token is masked exactly if it is 20 capitals and digits, 40 base64 characters, alone or with its padding, or 32 or 64 hexadecimal digits |
| OutputMasking.DelimitersAre | iac-runner/internal/runs/redact.go:160-175 | The characters between tokens |
| GateLexer.Tokenizer.Tokenize | internal/verify-opencode-gate.py:89-111 | The loop over the source gives the tokens of the specification, or fails where it does |
| GateLexer.Tokenizer.LexString | internal/verify-opencode-gate.py:120-134 | A quoted string with doubled quotes, ending at the first single one |
| GateLexer.LayoutReadsBack | internal/verify-opencode-gate.py:89-153 | Any tokens written with blanks that keep them apart tokenize back to themselves and the end marker |
| GateLexer.LexShape | internal/verify-opencode-gate.py:89-111 | The end marker is last and nowhere else |
| GateParser.Evaluator.Eval | internal/verify-opencode-gate.py:176-184 | The class computes the functional evaluator for every text |
| GateParser.Evaluator.Or | internal/verify-opencode-gate.py:223-228 | The loop gives the left-associated value; every token is read in range, and the index ends behind the end marker exactly when an operand is missing there |
| GateParser.Evaluator.Equality | internal/verify-opencode-gate.py:237-245 | The same for chains of `==` and `!=` |
| GateParser.Evaluator.Primary | internal/verify-opencode-gate.py:252-264 | Groups, literals, paths and calls; the token is taken before it is looked at, so the end marker is consumed, and no value given, exactly when a primary or an inner one meets it |
| GateParser.Evaluator.CallFunction | internal/verify-opencode-gate.py:266-281 | Known functions with exactly two string arguments; the same for the index |
| GateParser.EmptyExpressionMeetsEnd | internal/verify-opencode-gate.py:176-264 | The empty expression is one that steps behind the end marker |
| GateGrammar.TreeEvaluates | internal/verify-opencode-gate.py:223-281 | The tokens of every expression tree, with the fewest or with extra parentheses, evaluate to the tree's meaning, error or value |
| GateGrammar.WritingIsUnambiguous | internal/verify-opencode-gate.py:223-281 | Two trees with the same tokens mean the same in every context |
| GateGrammar.AcceptsExactlyTheTrees | internal/verify-opencode-gate.py:176-281 | A token list gets a value exactly when it is the writing of a tree with that value |
| GateGrammar.TextEvaluates | internal/verify-opencode-gate.py:89-281 | Any legible text of a tree evaluates to its meaning |
| GateGrammar.TextMeansATree | internal/verify-opencode-gate.py:89-281 | A text gets a value exactly when its tokens are those of a tree with that value |
| GateMeaning.TreeMeans | internal/verify-opencode-gate.py:190-298 | The tokens of every tree evaluate to its meaning, given without the evaluator's operations: truth, negation, and, or, comparison, calls, paths and decimals |
| GateMeaning.TextMeans | internal/verify-opencode-gate.py:89-298 | So does its text, with any blanks that keep the tokens apart |
| GateMeaning.AcceptedTextsMean | internal/verify-opencode-gate.py:89-298 | A text gets a value exactly when its tokens are those of a tree that means it |
| GateMeaning.ChainGivesFirst | internal/verify-opencode-gate.py:223-228 | A chain of `or` (two bars) gives its first truthy operand, else the last |
| GateMeaning.WordsLex | internal/verify-opencode-gate.py:142-153 | A word of letters, digits, underscores and points is one name, or one of the three literal words |
| GateMeaning.NumbersLex | internal/verify-opencode-gate.py:136-140 | Digits with at most one point are one number |
| GateGrammar.OverrunNeedsOpenEnd | internal/verify-opencode-gate.py:206-264 | The evaluator steps behind the end marker only for tokens that are empty or end in an operator, parenthesis or comma that wants an operand, and such tokens never get a value |
| YamlExport.EmitLines | ntfy/app/exporter.py:113-139 | The appending loops and the recursion give the printed lines |
| YamlRoundTrip.PrintedReadsBack | ntfy/app/exporter.py:108-151 | Every document without a broken or too long key, nested any way, reads back from block style (section 8.2 of YAML 1.2, with empty and at most 1024 characters long implicit keys and unique keys) with its plain keys resolved, unless two keys of one mapping resolve to the same |
| YamlRoundTrip.UnreadableExactly | ntfy/app/exporter.py:92-151 | Of the documents without a broken key, the text is unreadable exactly when some key is longer than 1024 characters when written, or two keys of one mapping resolve to the same |
| YamlRoundTrip.BrokenNeverReturns | ntfy/app/exporter.py:108-110 | A document with a key that is a word with a final line break, at any depth, never comes back: its text is unreadable or reads as a mapping with a null key |
| YamlRoundTrip.ReadsBackExactly | ntfy/app/exporter.py:92-151 | A document comes back as it was exactly when its keys are unique and none is such a word, too long, or a word of the core schema |
| YamlRoundTrip.BrokenExample | ntfy/app/exporter.py:108-110 | A concrete key that makes the text unreadable |
| YamlRoundTrip.NestedExample | ntfy/app/exporter.py:108-110 | The same key one level deeper makes the text read as another document |
| YamlRoundTrip.LongExample | ntfy/app/exporter.py:108-110 | A key of 1025 letters makes the text unreadable |
| YamlRoundTrip.PlainKeysAre | ntfy/app/exporter.py:89-110 | A key is printed as it is exactly when it is a letter or underscore followed by letters, digits and underscores, with or without a line break behind it; otherwise quoted |
| YamlRoundTrip.ReservedExample | ntfy/app/exporter.py:108-110 | The key `null` comes back as the null value |
| YamlRoundTrip.TwinExample | ntfy/app/exporter.py:108-110 | The keys `null` and `Null` in one mapping make the text unreadable |
| NtfyAccounts.Accounts.Protection | ntfy/app/accounts.py:52-64 | Protected are the anonymous user, the options admin and the only admin |
| NtfyAccounts.Accounts.CreateUser | ntfy/app/accounts.py:131-141 | The new state and result for every request and every fate of the command and of the record |
| NtfyAccounts.Accounts.DeleteUserNamed | ntfy/app/accounts.py:152-163 | The same for a deletion, with guards and backup |
| NtfyAccounts.Accounts.ChangeRoleOf | ntfy/app/accounts.py:166-179 | The same for a role change |
| NtfyAccounts.Accounts.PromoteUser | ntfy/app/accounts.py:182-201 | The loops stash the listed rules with their origins and drop their records, up to the first write that fails |
| NtfyAccounts.Accounts.DemoteUser | ntfy/app/accounts.py:204-214 | The restore loop, up to the first command or record that does not work; only a command puts the rest back |
| NtfyAccounts.Accounts.SetRuleOf | ntfy/app/accounts.py:237-258 | A rule is set for non-admins only and keeps the owner `iac` |
| NtfyAccounts.Accounts.RemoveRuleOf | ntfy/app/accounts.py:261-270 | A rule and its record go together |
| NtfyCalls.CreateMeans | ntfy/app/accounts.py:131-141 | When a user is created, with which fields, and which error is given otherwise, for every fate of command and record |
| NtfyCalls.DeleteMeans | ntfy/app/accounts.py:152-163 | When a user is deleted, and exactly what goes with it |
| NtfyCalls.SetRuleMeans | ntfy/app/accounts.py:237-258 | When a rule is set, with which permission and owner |
| NtfyCalls.RemoveRuleMeans | ntfy/app/accounts.py:261-270 | When a rule is removed, with its record |
| NtfyCalls.RoleMeans | ntfy/app/accounts.py:166-214 | When a role changes, and that no other role, password or owner of a user does |
| NtfyCalls.PromotionMeans | ntfy/app/accounts.py:182-201 | A promotion without failures takes all rules with their owners into the stash and says how many |
| NtfyRoles.OnlyUnprotectedFall | ntfy/app/accounts.py:152-179 | Whatever fails, a call takes the admin role from the user it names at most, and never from a protected one |
| NtfyRoles.AdminsSurvive | ntfy/app/accounts.py:52-214 | No sequence of calls with any failures leaves no admin or takes the role from the options admin |
| NtfyRoles.OthersUntouched | ntfy/app/accounts.py:131-270 | A call leaves role, stash, rules and origins of every other user alone |
| NtfyRoles.RoleRoundTrip | ntfy/app/accounts.py:182-214 | Promotion, any other calls, and demotion give back the exact rules and origins if and only if there were rules or no stash was left over |
| NtfyRoles.SmoothRunsStayClean | ntfy/app/accounts.py:131-270 | Without failures admins have no rules and nobody else has a stash, so the exception of RoleRoundTrip never arises |
| NtfyRoles.DemotionConserves | ntfy/app/accounts.py:204-214 | A prefix of the stash is restored exactly; the rest is still stashed exactly when none is left, the role command failed or its answer was lost, the stash was not taken out, or a command stopped the loop and the rest could be put back |
| NtfyRoles.StashesStayOnce | ntfy/app/accounts.py:182-214 | Any calls with any failures keep at most one stashed rule per topic |
| NtfyRoles.RunsConserve | ntfy/app/accounts.py:131-214 | So that conservation holds after any calls from a state without a stash |
| NtfyRoles.LossyDemotion | ntfy/app/accounts.py:204-214 | A stash of two rules whose second is gone after the record of the first could not be written |
| NtfyRoles.LostPromotion | ntfy/app/accounts.py:182-201 | Rules are lost without a stash exactly when there are some, the backup worked, and the answer of the command or the write of the stash is what fails |
| NtfyRoles.LostExample | ntfy/app/accounts.py:182-201 | A concrete state and call that lose a rule |
| NtfyBaseline.Baseline.Run | ntfy/app/baseline.py:34-61 | The whole application as a function of settings, state and failures |
| NtfyBaseline.Baseline.One | ntfy/app/baseline.py:64-107 | One entry, with a user that is known, new, or found by the command |
| NtfyBaseline.Baseline.OrphanRules | ntfy/app/baseline.py:122-126 | The loop over the snapshot hands over exactly the unnamed records |
| NtfyBaseline.NeverDeletes | ntfy/app/baseline.py:34-107 | No user or rule goes away and no role changes, whatever fails |
| NtfyBaseline.ForeignStays | ntfy/app/baseline.py:92-107 | A rule of another owner keeps permission and owner if the database could be read or no entry names it |
| NtfyBaseline.ForeignSafeExactly | ntfy/app/baseline.py:38-44 | Over all failures it is safe exactly then |
| NtfyBaseline.ForeignExample | ntfy/app/baseline.py:38-44 | A rule made in the gui that an unreadable database turns into one of the options with another permission |
| NtfyBaseline.SmoothResult | ntfy/app/baseline.py:64-126 | Without failures: new users, last password, last permission of rules that are new or owned by the options, hand-over of the rest |
| NtfyBaseline.SecondApplicationIsQuiet | ntfy/app/baseline.py:34-128 | A second application changes nothing, even with entries that contradict each other |
| NtfyOptions.UsersMean | ntfy/app/baseline.py:64-126 | Users after an application without failures, in terms of the entries: who is made, whose password is set to which entry's, whose record goes to the gui |
| NtfyOptions.RulesMean | ntfy/app/baseline.py:64-126 | Rules likewise: which are set to which entry's permission, which stay, and who owns them |
| Incidents.LastIncidents | haos-monitor/app/incidents.py:29-63 | For every file, limit and cap and every block of at least one byte, the backward scan is the forward filter |
| Incidents.SameForEveryBlock | haos-monitor/app/incidents.py:37-63 | The result does not depend on the block size |
| Incidents.NewestMeaning | haos-monitor/app/incidents.py:22-63 | The forward filter gives, in the order of the file and each cleaned, the last `limit` marked lines of the scanned part, or all of them; every marked line passed over is before those |
| Incidents.CleanIs | haos-monitor/app/incidents.py:22-27 | A cleaned line is its decoded text without one final carriage return and without control characters, cut at the limit |
| Incidents.DropControlsIs | haos-monitor/app/incidents.py:18-27 | Character by character, tabs and everything but control characters stay |
| Incidents.MarkedIs | haos-monitor/app/incidents.py:13 | A line is marked exactly when the bytes of the marker stand in it |
| SecretsMerge.MergeAll | secrets-sync/app/engine/merge.py:25-52 | The nested loops, in any order of names, give the specified merge or its first error |
| SecretsMerge.EarliestWins | secrets-sync/app/engine/merge.py:36-43 | Every secret has the value of the earliest provider that has it; none is lost or added |
| SecretsMerge.MergeFails | secrets-sync/app/engine/merge.py:30-51 | A merge fails exactly on an unsafe path or, under `error`, on a name that two providers share |
| SecretsMerge.EarliestFileWins | secrets-sync/app/engine/merge.py:44-51 | Every file has the content of the earliest provider that has it; none is lost or added |
| SecretsMerge.ShadowsAre | secrets-sync/app/engine/merge.py:36-51 | Reported as shadowed is each name of a provider that an earlier one has first, with both providers, and nothing else |
| SecretsMerge.SafePathIs | secrets-sync/app/engine/writer.py:149-156 | A safe path is relative, has no backslash and no NUL, and no part that is empty or one or two points |
| SecretsCycle.Supervisor.RunOnce | secrets-sync/app/engine/supervisor.py:258-374 | One cycle as a function of the state and of what the outside does |
| SecretsCycle.Supervisor.WriteOut | secrets-sync/app/engine/supervisor.py:334-374 | Write, bookkeeping and end of the cycle for each outcome of the write |
| SecretsRuns.HeldIsLatest | secrets-sync/app/engine/supervisor.py:270-290 | In every run the held snapshot of a provider is its latest good one |
| SecretsRuns.DiskOnlyByAttempt | secrets-sync/app/engine/supervisor.py:329-342 | secrets.yaml changes in no other way than by a decided write |
| SecretsRuns.WritesExactlyWhen | secrets-sync/app/engine/supervisor.py:258-342 | A cycle writes if and only if all its conditions hold, and writes the merge of the latest snapshots and the composed keys |
| SecretsRuns.EveryWriteIsSafe | secrets-sync/app/engine/supervisor.py:268-349 | Every write holds every key of every latest good snapshot with the earliest provider's value, is not empty, comes from disjoint providers under `error`, meets the size bound unless forced, and happens without a reported collision |
| SecretsRuns.ComposedExactly | secrets-sync/app/engine/supervisor.py:318-328 | Keys are composed exactly when there are none to compose, or their names are new and rendering works, and with the rendered values |
| SecretsRuns.CycleReports | secrets-sync/app/engine/supervisor.py:258-460 | Status, error code, failures in a row and next time of every cycle: fine exactly when it wrote, every provider delivered and no file was skipped |
| SecretsRuns.BackoffGrows | secrets-sync/app/engine/supervisor.py:451-460 | The wait starts at 30 seconds, never shrinks while failures go on and never exceeds the interval |
| AdminUiTree.SameHashSameFiles | internal/sync-admin-ui.py:54-75 | Without collisions the same tree hash means the same paths and contents |
| AdminUiTree.EncodeIsInjective | internal/sync-admin-ui.py:72-75 | The text that is hashed determines the entries |
| AdminUiTree.WalkOrderIsIrrelevant | internal/sync-admin-ui.py:58-75 | The order of the directory walk and what is skipped do not matter |
| AdminUiSync.ParseKvLoop | internal/sync-admin-ui.py:92-109 | The loop is the strict parser |
| AdminUiSync.StampReadsBack | internal/sync-admin-ui.py:92-131 | The parser inverts stamp and lock texts |
| AdminUiSync.ParsedIsRendered | internal/sync-admin-ui.py:92-109 | What it accepts is such a text, with or without the final newline |
| AdminUiSync.CopySucceeds | internal/sync-admin-ui.py:159-180 | A copy succeeds exactly when it was up to date or the copy patterns leave no hashed file behind |
| AdminUiSync.UncopiedExample | internal/sync-admin-ui.py:159-180 | The tree with one file named `__pycache__` cannot be copied |
| AdminUiSync.CopyIsUpToDate | internal/sync-admin-ui.py:159-180 | After a copy the part is up to date, and it is rewritten exactly when it was not |
| AdminUiSync.Tool.DoSync | internal/sync-admin-ui.py:183-199 | All targets in order, then the lock; an error exit where the specification has one |
| AdminUiSync.Tool.DoCheck | internal/sync-admin-ui.py:231-256 | The failures of lock and consumers, added up |
| AdminUiSync.SyncMakesCheckPass | internal/sync-admin-ui.py:183-256 | After a sync of all consumers the check, strict or not, finds nothing |
| AdminUiSync.RepeatedSyncIsQuiet | internal/sync-admin-ui.py:159-199 | A repeated sync succeeds and changes no copy and no lock |
| AdminUiSync.ReleasePassesCheck | internal/sync-admin-ui.py:259-282 | A release that gets through passes the strict check and takes back no version |
| AdminUiCheck.CheckPassesExactly | internal/sync-admin-ui.py:202-256 | The check finds nothing exactly when the lock names version and hashes of the source and every stamped directory is valid with both copies as their stamps say, at the version of the source and its hash, or, if not strict, at an earlier version |
| AdminUiCheck.StrictCheckMeansSameFiles | internal/sync-admin-ui.py:54-256 | After a strict check that finds nothing every copy holds the compared files of the source and no others |
| AdminUiCheck.CheckErrsExactly | internal/sync-admin-ui.py:202-256 | It exits with an error exactly when the source has no version, a directory is not valid, or an untampered library copy has no version |
| AdminUiCheck.CopiesExactly | internal/sync-admin-ui.py:159-180 | A copy succeeds exactly when it was up to date or no compared file has a left-out name in its path |
| AdminUiCheck.SyncGoesThrough | internal/sync-admin-ui.py:183-199 | With a source that can be copied and valid directories a sync succeeds, brings every included directory and the lock in step, and changes no other directory |
| AdminUiCheck.ReleaseSetsVersion | internal/sync-admin-ui.py:259-282 | A release gives library and lock its version, changes no other file of the source, and reuses a version only for unchanged files |
| AdminUiCheck.ReleasesExactly | internal/sync-admin-ui.py:259-282 | When a release goes through: form of the version, nothing newer in source or copies, valid directories, readable versions, an unchanged lock for the same version |

## Left out

- Processes, signals, pipes and the kill chain of a run: an execution is a step that ends with any exit code, time-out, error or panic.
- Real file systems and file locks: a rename is one step, a lock is exclusive, and partial removal of a run directory is not modelled.
- JSON decoding of log records and metadata: decoding is assumed to invert encoding, and a decoder may fail on any line.
- Regular expressions: the credential patterns are length and alphabet predicates, and the URL pass before them is an abstract function.
- The job queue and the concurrent store on objects: their goroutines are modelled on values, so aliasing of Go structures is not captured.
- Rotation of a run directory without metadata: a directory that is just being created is assumed not to be over age.
- Panics inside a terminal metadata write.
- JobQueue.MutualExclusion: is about jobs in their execution window, because after a panic the terminal write happens once the mutex is free.
- PlanArtifacts.PlanUsedOnce: covers runs without crashes of the program; panics of a job are covered.
- Plans: the start of an apply, the failure of `init` and the output of the processes are not distinguished; the stored status of the plan machine and that of the queue machine are set by separate steps.
- OutputMasking.PagesMaskKeys: needs the same as OutputPaging.PageNeverReveals; OutputMasking.KeysAreMasked needs nothing of the kind.
- OutputPaging.PageNeverReveals: needs that decoding keeps the PEM markers, which OutputPaging.WrittenIsFaithful shows for written records.
- GateLexer.Tokenizer.Tokenize: letters and digits are ASCII where the source takes any Unicode ones.
- Expression numbers are real numbers, so rounding and exponents of floating point are not modelled.
- Case folding is an arbitrary function; function names are folded in ASCII only; equality of context objects is structural.
- `evaluate_bool`, the workflow file and the truth table of the gate.
- YamlRoundTrip.UnreadableExactly: is about documents without a broken key; the reader has no plain scalars over several lines (section 7.3.3), so it refuses some texts with a broken key that read as another document.
- Floating-point values and unpaired surrogates in the YAML export, and the JSON form of the export.
- ntfy tokens, tiers, audit output and the schema versions; other processes that change the database or the origin file during a call; failing writes of the origin file in the baseline.
- NtfyAccounts.Accounts.DemoteUser: a write of the origin file that fails while saving has changed the records in memory; that a restart may forget them is not modelled.
- Promoting a user again after a failed demotion overwrites the stash; the code does not promise conservation there.
- NtfyBaseline.ForeignSafeExactly: the counterexample uses commands that all work; entries that the command line would reject are covered only as commands that fail.
- The baseline report and its log lines.
- Incident files that cannot be opened, and the decoding of bytes with replacement characters, which is an arbitrary function.
- Provider code, template rendering of composed keys, provider files on disk, diffs of key names, events, change probes and Supervisor reloads of secrets-sync.
- SecretsMerge.CheckShrink: works in integers; the rounding of `1 - percent / 100` is not modelled.
- SHA-256: an arbitrary function with results of 64 hexadecimal digits, assumed without collisions only on the texts at hand.
- AdminUiSync.ParseKvLoop: version digits and the blanks that are stripped around a version are ASCII where the source takes any Unicode ones.
- Symbolic links, file modes, empty directories and the temporary directory in the admin UI sync; a directory named `LIB.stamp` at the root of a copy.
- A sync of named consumers only: the model always includes every discovered one.
- Names of admin UI consumers: directories are numbered in name order and the outcome of their validation is given.
- Jinja rendering, web servers, MQTT, front ends, version bumps and the generators of configuration text: plumbing around the cores above.
