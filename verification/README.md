# Verified models of the skill tooling

This project models three groups of scripts and proves what they are for.

- **The skill engine.** `SKILL.md` files carry fenced `nc:` directives. A parser reads them, a
  linter checks them, an interpreter applies them to a project with variables, guards, a failure
  latch, a journal and an event stream, a remover plays the journal backwards, and a static policy
  says where a human must confirm.
- **The crash-safe Slack jobs.** The background worker that receives a bot token and installs the
  channel, and the portal stage that creates a Slack app at most once per recorded intent. Both are
  state machines over a durable file, with a crash possible at every await.
- **The text scanners and writers.** Shell quoting and word splitting, the SQL masking lexer, the
  JSON span scanner, the pin transaction with rollback, the reference-prose slicer, and the `.env`
  reader and writers.

## How the model is built

Loops and objects that change state are methods and classes: `SlackWorker.Worker`,
`SlackPortal.Portal`, `PinSync.Repo`, `DotEnv.EnvFile`, the engine's loop in `EngineLoop`, and the
scanners' loops. Each is proved equal to a function, or to keep an invariant over everything
observable; the theorems are then lemmas about that function or about every trace the invariant
admits. Expressions stay functions.

What those functions compute is then said a second time, from the document, the versions or the
answers alone: `Reading`, `LintReport`, `Deeds`, `Decisions`, `Failures`, `Prompts`, `Latch`,
`Journal`, `Stopping`, `ReferenceLines`, `ShellGrammar`, `PinOutcome`, `EnvLines` and `SlackEnding`
spell out the attributes, effects, codes, lines and versions that decide.

Everything outside the scripts is an oracle with arbitrary answers. In the engine, each oracle
takes the number of oracle calls made so far, so equal questions may be answered differently;
`faults` counts the answers that were failures: a command, a write, an event handler, a missing or
invalid input, a missing source file or marker, a file that holds no JSON array, command output
that is not JSON or misses its `validate:`. In the Slack jobs, an oracle gives every service answer
and every save result, a number says at which await the process dies, and another answer says
whether a save cut short had already renamed its file.

A project file is a list of lines or a JSON array; a text is its lines joined by newlines
(`Text.JoinSplit`). Characters are compared as the scripts compare them, with `\s`, line
terminators and identifiers written out in `Text`.

### Where a promise does not hold

Each of these is shown by a concrete input or run, or by an equation for every input. Where a theorem
states for all inputs exactly when the promise is kept, it is named.

- **Lint.** References are checked line by line, but an operator block and a streamed step are
  substituted as one joined text, and `\s` matches a newline. A reference broken over lines passes
  the linter and defers at run time (`LintSoundness.LintMissesSplitReference`). Exactly when:
  `LintSoundness.LintSoundness`.
- **Undo of a value.** A captured value of two lines is written to `.env`, and removing the key leaves
  its second line (`Shortfalls.EnvValueStays`). Exactly when: `Undo.EnvValueUndoesIff`.
- **Undo of a merge.** An object whose key holds an object is merged into a list and is still there
  after the removal (`Shortfalls.PushedObjectStays`). Exactly when: `Undo.PushedElementUndoesIff`.
- **Undo of a copy.** A copy that fails at its second line leaves its first file and no journal entry
  (`Undo.HalfCopyStays`). Exactly when one copy leaves a file: `CopyUndo.CopyLeavesIff`; exactly when a
  whole run and its removal do: `CopyUndo.CopyUndoesIff`.
- **The failure latch.** A command fails with text that reads like the engine's marker for a missing
  answer; nothing is handed to an agent, and the restart after it runs
  (`Shortfalls.ErrorTextEscapesLatch`). Exactly when, whoever threw: `EngineOutcomes.FailureLatchesIff`.
- **The worker's receipt.** While every save of the job file is refused and the process lives on, the
  token is in memory only; the next turn acknowledges the receipt and the token is lost
  (`SlackWorker.RefusedSaveLosesReceipt`). Exactly when: `SlackWorker.ReceiptBeforeAcknowledgement`.
- **A finished job.** A complete job whose report is refused with a sign-out error becomes failed
  (`SlackWorker.FinishedJobFails`), and a run that completes a job may fail it again, for instance when
  the completing save is rejected after it replaced the file (`SlackWorker.CompletedJobFails`). Exactly
  when: `SlackCompletion.FinishedJobFailsIff` for a run that finds a complete job,
  `SlackCompletion.CompletingRunFailsIff` for a run that completes one.
- **Reference prose.** A carriage return at the end of a section's last line hides a heading until
  trimming removes it, and the second slice drops that line (`ReferenceProse.ReturnNotIdempotent`).
  Exactly when: `ReferenceProse.SliceIsIdempotentIff`.
- **Removing a key.** The removal's pattern also starts lines after a carriage return or a Unicode
  separator; on a file an update just wrote it deletes other text and leaves the key readable
  (`DotEnv.ReturnMisleadsRemove`). Exactly when: `DotEnv.RemoveUnreadsIff`.
- **Other keys.** After an update, a key that differs from a written key only by surrounding blanks is
  no longer set (`DotEnv.UpdateKeepsOthers`); a value with newlines given to the single-key writer may
  set other keys (`DotEnv.KeyKeepsOthers`).
- **The single-key writer.** Updating a key that is there adds an empty line each time
  (`DotEnv.UpdateGrows`).

## Model

| member | source | states |
|---|---|---|
| SlackWorker.Worker.Save | setup/slack-worker.ts:91 | Replaces the job file with the job in memory or leaves it, also when the process dies or the save is refused; returning normally means the file holds the job |
| SlackWorker.Worker.Report | setup/slack-worker.ts:93-103 | A status already told is not told again and changes nothing; an accepted report is remembered; only a sign-out error escapes, and the job in memory stays level with the file |
| SlackWorker.Worker.Deliver | setup/slack-worker.ts:113-129 | Going on means a token is held; any other answer polls again or is raised, and nothing of the file is lost |
| SlackWorker.Worker.Accept | setup/slack-worker.ts:123-128 | Token and receipt are set together and saved before anything else happens: going on means the file holds them |
| SlackWorker.Worker.Acknowledge | setup/slack-worker.ts:130-134 | The first thing an unacknowledged receipt causes is the acknowledging call for exactly that receipt |
| SlackWorker.Worker.Clear | setup/slack-worker.ts:139-142 | Going on means the last status answer inside this lock section was installed |
| SlackWorker.Worker.Apply | setup/slack-worker.ts:135-148 | The installation inside one lock section; whatever it raises leaves a job that may be marked failed |
| SlackWorker.Worker.Fail | setup/slack-worker.ts:149-160 | The file ends at failed or as it was; a living process means the job is concluded or a save did not finish |
| SlackWorker.Worker.RunSlackJob | setup/slack-worker.ts:66-173 | Every run, killed at any await, extends the history with allowed events only; a run that returns leaves the job settled or complete unless a save did not finish; how it ends is in SlackEnding.RunEndsAs |
| SlackWorker.ReceiptBeforeAcknowledgement | setup/slack-worker.ts:113-134 | In every history, a receipt is acknowledged while the file holds it with the token it came with exactly when each delivery so far was followed by a save that replaced the file, or by a new run; otherwise the file holds no token |
| SlackWorker.TokenIsKept | setup/slack-worker.ts:76-170 | A durable token, receipt and acknowledgement are never dropped or replaced; failed and expired jobs never change; complete never becomes expired |
| SlackWorker.InstallOncePerRun | setup/slack-worker.ts:138-147 | Two install calls are always in different runs |
| SlackWorker.InstallIsCleared | setup/slack-worker.ts:138-147 | Every install is inside a lock section after the status answer installed, with the durable job installing |
| SlackWorker.RefusedSaveLosesReceipt | setup/slack-worker.ts:66-173 | A whole run in which every save is refused: the token arrives, its receipt is acknowledged on the next turn, and the process dies with no token in the file |
| SlackWorker.FinishedJobFails | setup/slack-worker.ts:93-170 | A whole run that finds a complete job: its report is refused with a sign-out error, and the file ends with the same job failed for that reason |
| SlackWorker.CompletedJobFails | setup/slack-worker.ts:135-157 | A whole run in which the completing save is rejected after it replaced the file: the job is complete in the file and then failed |
| SlackCompletion.FinishedJobFailsIff | setup/slack-worker.ts:93-157 | A run that finds a complete job leaves it failed if and only if completion was not reported before, a report is refused with a sign-out error before one is accepted and before deadline and death, and the next save replaces the file; otherwise the job stays complete |
| SlackCompletion.CompletingRunFailsIff | setup/slack-worker.ts:76-157 | A run completes a job in the file and ends with it failed if and only if an installation is answered, the completing save replaces the file, then that save is rejected all the same or a report is refused with a sign-out error, and the save of the failed job replaces the file |
| SlackEnding.TurnIsWalk | setup/slack-worker.ts:93-148 | A turn awaits, in order, the report, the delivery, its save, the acknowledgement, the lock, the second status answer and the installation, leaving out what the job already has; it ends at the first answer that raises, and the list says which answers raise which error |
| SlackEnding.RunEndsAs | setup/slack-worker.ts:66-173 | A run on an unconcluded job ends failed if and only if a turn raises one of the codes or statuses written out there, or any error once the installation began, with that reason; it ends expired if and only if the deadline comes first; any other error only waits; each provided the concluding save replaces the file |
| SlackPortal.Portal.Save | setup/portal.ts:349 | Writes the record or leaves it; an unanswered create stays recorded as creating |
| SlackPortal.Portal.BeginPortal | setup/portal.ts:213-265 | Opening the stage and adopting a finished job never makes an outstanding create look answered; going on means the stage is available and the record is the old one with a finished job of the same app taken over |
| SlackPortal.Portal.Create | setup/portal.ts:339-363 | Intent saved, create called once for this flow and choice, answer saved: success means the file holds the app that this call received |
| SlackPortal.Portal.RunSlackPortal | setup/portal.ts:301-384 | Every run extends the history with allowed events only, creates at most one app, for the choice made, and only when no create is open and no app of that choice is recorded; success returns the recorded app of that choice; it succeeds or skips only if no call or save failed and fails only if one did or the stage refuses; a run without trouble ends, refuses, skips or creates exactly as the record and the answers say |
| SlackPortal.Portal.Serve | setup/portal.ts:311-379 | For one choice: refused when the workspace is gone, a finished setup cannot be verified or a create is open; otherwise the finished or recorded app of the choice is returned, or one app is created |
| SlackPortal.OutstandingIsDurable | setup/portal.ts:332-363 | As long as a create's result is not recorded, the file says creating |
| SlackPortal.CreateIsRecordedFirst | setup/portal.ts:342-351 | Each create call is made while the file says creating for exactly that call |
| SlackPortal.NoCreateWhileAmbiguous | setup/portal.ts:332-363 | Between two creates the first one's answer was received and recorded, over every history |
| SlackPortal.AmbiguityBlocks | setup/portal.ts:334-337 | A create whose answer never came blocks every later create and freezes the record |
| ShellWords.Quoted | scripts/skill-pins.ts:127-140 | The loop computes the quote mask |
| ShellWords.StripComment | scripts/skill-pins.ts:143-149 | The result is the line up to its first comment start, or the whole line when there is none |
| ShellWords.ReadWords | scripts/skill-pins.ts:159-182 | The loop computes the shell words of the text from a position |
| ShellWords.WordsOfCommandLine | scripts/git-fetch-branch.ts:2-4 | Quoting each of any list of strings in either style, joined by spaces, reads back as the list |
| ShellWords.CommandLineHasNoComment | scripts/git-show-to-file.ts:3-5 | Comment stripping leaves every such command line unchanged |
| ShellWords.WordsOfFetchBranch | scripts/git-fetch-branch.ts:6-9 | The fetch command for any remote and branch reads as exactly its four words |
| ShellGrammar.WordsAreMeanings | scripts/skill-pins.ts:159-182 | Every spelling of a list of words, in plain and escaped characters, single and double quotes, reads as the words, and reading ends at the first unquoted separator |
| ShellGrammar.PartMask | scripts/skill-pins.ts:127-140 | Quoted text is masked with its quotes; plain and escaped characters are not |
| SqlMask.MaskSqlNonCode | scripts/q.ts:44-110 | The lexer's loop computes the mask |
| SqlMask.MaskKeepsShape | scripts/q.ts:44-110 | The mask keeps length and every newline and changes a character only to a space |
| SqlMask.MaskOpensNothing | scripts/q.ts:44-110 | No comment, quote, bracket or dollar-tag opener is left anywhere in a mask |
| SqlMask.MaskIdempotent | scripts/q.ts:44-110 | Masking a mask changes nothing |
| SqlMask.MaskIsCodeOnly | scripts/q.ts:44-110 | For any token sequence the grammar allows, also one ending in a comment or quote that never ends, the mask is the code tokens with the others blanked |
| SqlMask.RoutedByCode | scripts/q.ts:112-117 | Two statements with the same code tokens in the same places are routed alike, whatever the length and text of their comments and literals |
| SqlMask.IsQueryOfMask | scripts/q.ts:112-117 | A statement is a query exactly when its mask is |
| Directives.ReadFences | scripts/skill-pins.ts:96-116 | The pin scanner's loop computes the fences with their numbered raw bodies |
| Directives.ParseDirectives | scripts/skill-directives.ts:125-162 | The parser's loop returns exactly the nc: fences of the pin scanner, with the same opening lines and the trimmed non-empty body lines |
| Directives.PrintThenParse | scripts/skill-directives.ts:125-162 | A well-formed directive list printed as fences between fence-free prose parses back, only line numbers shifted |
| Directives.HasSpelling | scripts/skill-directives.ts:147-153 | Every directive without awkward characters has a spelling, so the round trip covers it |
| Parsed.ParsedIsOrdered | scripts/skill-directives.ts:125-162 | Directives open on increasing lines and no body line is blank |
| Reading.ParseReads | scripts/skill-directives.ts:125-162 | For any text: blocks open at a fence with an info string and close at the next fence; the directives are the blocks whose info starts with nc:, in order, each with its kind, the words that declare nothing as arguments, the last value of every key, and the trimmed lines that hold more than space |
| Vars.SubstituteResolves | scripts/skill-apply.ts:580-586 | Substitution fails exactly when some referenced name is unbound |
| Vars.MentionIff | scripts/skill-directives.ts:182-188 | A name is found exactly when the text holds a pair of braces with that name and only space around it |
| Vars.FillsFirst | scripts/skill-apply.ts:580-586 | The first reference is replaced by its value, what stands before it is kept and what follows is substituted alike; an unbound name ends the substitution |
| Vars.RefsOfPart | scripts/skill-directives.ts:182-188 | What a part of a text references, the text references |
| Vars.RefsOfTrimmedTail | scripts/skill-apply.ts:802-804 | What the value of an env entry references, its line references |
| Engine.FindElement | scripts/skill-apply.ts:822-825 | The first array element whose key equals the value, none before it |
| EngineOutcomes.StepKeepsShape | scripts/skill-apply.ts:886-1055 | Whatever its kind and state, a directive adds exactly one entry to one result list, emits no event or one bracketed batch of its own, makes calls only under its own index and none when latched, and only extends the journal |
| EngineOutcomes.DoStepShape | scripts/skill-apply.ts:1001-1055 | However the start event, the work or the end event ends, a bracketed step has exactly one outcome and its events are its own start and end |
| EngineLoop.ForEachLine | scripts/skill-apply.ts:671-813 | Body lines are handled in order until one throws |
| EngineLoop.BindFields | scripts/skill-apply.ts:768-777 | The fields a step's terminal block binds |
| EngineLoop.ApplySkill | scripts/skill-apply.ts:843-1059 | The directive loop computes the run |
| EngineLoop.RemoveSkill | scripts/skill-apply.ts:1062-1102 | The remover plays the journal from its last entry to its first, calls its undo commands, and stops where a merged file does not parse or a file operation or an undo command throws |
| EngineOutcomes.ApplyOneWorks | scripts/skill-apply.ts:655-841 | Work on a directive only extends journal and calls and touches nothing of the result or the events |
| EngineOutcomes.OneOutcomeEach | scripts/skill-apply.ts:886-1055 | After any number of directives of any run each has exactly one outcome: applied, skipped, deferred, agent task or bound prompt |
| EngineOutcomes.EventsAreBracketed | scripts/skill-apply.ts:1004-1046 | The events of every run are operator events and immediate start/end pairs of one step, whatever throws |
| EngineOutcomes.BlockedMeansTask | scripts/skill-apply.ts:875-884 | The latch is set exactly when an agent task was recorded |
| EngineOutcomes.FailureLatch | scripts/skill-apply.ts:986-991 | In every run, once an agent task is recorded no gated run reaches a command and no operator event is emitted |
| Latch.GatedCallsPrecedeTasks | scripts/skill-apply.ts:986-991 | In every run, a recorded call of a run whose effect is restart, step, wire, build or test was made while no agent task had been recorded |
| Latch.GatedBounces | scripts/skill-apply.ts:986-991 | Met after an agent task, such a run becomes a task of its own and nothing else changes |
| Latch.OthersIgnoreTheLatch | scripts/skill-apply.ts:886-1055 | Any other directive but an operator block does after an agent task exactly what it would do without one: same tree, variables, calls, events and outcome |
| EngineOutcomes.DeferralNeverLatches | scripts/skill-apply.ts:1047-1053 | A directive that defers leaves latch and tasks as they were |
| EngineOutcomes.FailureLatchesIff | scripts/skill-apply.ts:1001-1055 | A directive that gets to its work sets the latch if and only if its start event, its work or its end event throws a step's own report or an error without the marker; any other error defers and leaves the latch, and without an error the directive is applied |
| EngineOutcomes.FailedCommandLatchesIff | scripts/skill-apply.ts:886-1055 | A run, check, step, dependency or branch copy that gets to its work and whose command fails is bounced and sets the latch exactly when the command's error text lacks the marker for a missing answer; with it the failure is deferred |
| EngineOutcomes.ReportedErrorLatches | scripts/skill-apply.ts:763-767 | A step that reports its own error is bounced with that text, also when it reads like an unresolved variable |
| Prompts.NormalizedIs | scripts/skill-apply.ts:547-557 | trim drops exactly the outer white space, rstrip-slash exactly the slashes at the end, lower gives the platform's lower case, and anything else leaves the value |
| Prompts.PromptOutcome | scripts/skill-apply.ts:914-947 | A prompt that is reached binds its variable if and only if it gets an answer whose normalized form is accepted, to that form; otherwise no variable changes and it is deferred or handed over |
| Prompts.SecretsStaySecret | scripts/skill-apply.ts:1056-1058 | In every run, a name that only secret prompts bind is never among the variables the caller gets |
| Policy.GuardMetIff | scripts/skill-apply.ts:593-597 | A guard is met exactly when its variable, split off at the first equals sign and trimmed, is bound to its trimmed value |
| Effects.ApplyOneKeeps | scripts/skill-apply.ts:655-841 | A directive that does not name a path leaves it, and the journal about it, alone |
| Effects.StepIsApply | scripts/skill-apply.ts:886-1055 | Around its work, a directive changes neither tree nor journal |
| Decisions.LeftOutIff | scripts/skill-apply.ts:894-982 | A directive is skipped for the mode, for its guard or because the caller owns its effect exactly when they say so, and nothing else changes |
| Decisions.TakenUpIff | scripts/skill-apply.ts:144-216 | A directive the run looks at is skipped as present exactly when its files, first line, packages, keys or element are there, is handed over at once exactly when the engine has no handler for it or its object does not parse, and is worked on otherwise |
| Failures.LineWorksIff | scripts/skill-apply.ts:671-813 | One body line throws exactly when a source is missing, a write or command fails, a marker is not there, a reference is unbound, or captured output does not parse or fit |
| Failures.WorksIff | scripts/skill-apply.ts:655-841 | The work on a directive throws exactly when one of its lines does after the lines before it, its fetch, install or stream fails, or its object or list is not readable or writable |
| Failures.StepTells | scripts/skill-apply.ts:84-91 | A step that did not complete throws its own text as a reported failure when that is not blank, and an unreported one otherwise |
| Failures.OperatorOutcome | scripts/skill-apply.ts:950-976 | An operator block an install reaches is skipped after a failure, deferred unseen with an unanswered reference, and otherwise its filled lines become a message and an event, and it is applied unless the consumer refuses |
| Deeds.CopiedFiles | scripts/skill-apply.ts:671-691 | A local copy that finished: every destination holds the source of its last line, every destination is journaled, nothing else changed and no command ran |
| Deeds.CopiedFromBranch | scripts/skill-apply.ts:671-691 | A branch copy that finished: one fetch, then one show per line from its source to its destination, and every destination journaled |
| Deeds.AppendedText | scripts/skill-apply.ts:692-717 | An append that finished: its lines stand at the end of the text, each on a line of its own |
| Deeds.InsertedText | scripts/skill-apply.ts:692-710 | An append at a marker that finished: its lines stand in order, indented like the marker, right before the first line with the marker |
| Deeds.DepsAdded | scripts/skill-apply.ts:718-736 | A dependency install that finished ran one command of its manager, in its directory, with its packages, and journaled it with the command that removes them |
| Deeds.Checked | scripts/skill-apply.ts:754-757 | A check that finished ran its filled lines in order and journaled nothing |
| Deeds.CommandsRun | scripts/skill-apply.ts:781-798 | Any other run that finished ran its filled lines in order and journaled each as written; only an external run has an undo command |
| Deeds.StepStreamed | scripts/skill-apply.ts:763-780 | A step that finished streamed its filled body once, was answered well, and journaled the body as written |
| Deeds.OutputBound | scripts/skill-apply.ts:625-651 | A bare capture binds the trimmed output, a list of pairs binds for each name the value at the path of its last pair, every value has the declared shape and none is secret |
| Deeds.FieldsOfStepBound | scripts/skill-apply.ts:768-777 | A step binds for each name of its capture the trimmed field of its last pair, or the empty text |
| Deeds.SettingsAdded | scripts/skill-apply.ts:799-814 | An env-set that finished: each key that no line assigns yet stands at the end of the file with its filled value |
| Deeds.SetsKeyIff | scripts/skill-apply.ts:121-128 | A line counts as setting a key exactly when it is the key, an equals sign and a value that is not blank, with space allowed around the key |
| Deeds.MergedElement | scripts/skill-apply.ts:815-836 | A merge that finished pushes an object no element matches, replaces in a refresh the first element that matches and differs, and otherwise changes nothing |
| Undo.UndoRestores | scripts/skill-apply.ts:1062-1102 | The journal of any run, install or refresh, played backwards to its end, restores a path: the same text up to a final newline, or the same JSON array, whether an element was pushed or replaced. Needed of the path: commands leave it alone, a copy's destination was absent and no copy to it stopped half way, no appended line or key occurs in it, it is a text or an array only, its merge keys are scalar, and every line of a written value starts with its key |
| Removal.RemovalFinishes | scripts/skill-apply.ts:1062-1102 | The removal of any run reaches its end exactly when none of its file operations and undo commands throws: a merged file parses whenever its entry is undone, if no command and no text edit changes merged files and no copy of one stopped half way |
| Stopping.EntryUndone | scripts/skill-apply.ts:1066-1100 | Undoing one entry, in any project: the written file is gone, exactly the lines equal to the appended one or starting with the key are gone, or the first list element with the merged value is gone or is the previous one again; every other line, element and file stays |
| Stopping.RemovalCompletes | scripts/skill-apply.ts:1062-1102 | A removal in which no entry is stuck when its turn comes undoes every entry and calls every undo command, newest first |
| Stopping.RemovalStops | scripts/skill-apply.ts:1062-1102 | Otherwise it stops at the newest stuck entry, one whose merged text does not parse or whose file operation or undo command fails: later entries are undone and their commands called, the file of this one is as its failure left it, and earlier ones are untouched |
| Removal.UndoSkill | scripts/skill-apply.ts:843-1102 | Parse a SKILL.md, install or refresh it, remove it: the removal finishes exactly when none of its operations and undo commands throws, and then each path under the same conditions is as it was |
| Journal.JournalIsSpelled | scripts/skill-apply.ts:655-841 | Every journal entry of every run is spelled by the text of one of its directives: no answer, capture or filled-in command is ever recorded |
| Journal.UndoCommandsCalled | scripts/skill-apply.ts:1062-1102 | A removal that reaches its end has called every undo command of the journal once, newest first |
| Undo.UnnamedUntouched | scripts/skill-apply.ts:1062-1102 | A path no directive names is identical after the run and after the removal, in every mode |
| Undo.EnvValueUndoesIff | scripts/skill-apply.ts:1078-1086 | Removing a key takes its appended text out again exactly when every line of it starts with the key |
| Undo.PushedElementUndoesIff | scripts/skill-apply.ts:1087-1097 | Removing a merge takes the pushed element out again exactly when it is an object whose key holds a scalar |
| Undo.HalfCopyStays | scripts/skill-apply.ts:681-690 | A copy that fails at its second file leaves the first one and no journal entry |
| CopyUndo.CopyLeavesIff | scripts/skill-apply.ts:686-692 | A local copy leaves a file without an entry if and only if some line fails after an earlier line copied that file; with absent destinations it fails and leaves nothing if and only if its first line fails |
| CopyUndo.CopyUndoesIff | scripts/skill-apply.ts:672-692 | For a path only copies touch, any run and its removal leave it absent again if and only if every copy that changed it was journaled or some copy of it was |
| Shortfalls.EnvValueStays | scripts/skill-apply.ts:800-813 | A run that captures two lines and sets a key to them: after the removal the second line is still in the file |
| Shortfalls.PushedObjectStays | scripts/skill-apply.ts:815-836 | A run that merges an object under a non-scalar key: after the removal the object is still in the list |
| Shortfalls.ErrorTextEscapesLatch | scripts/skill-apply.ts:1047-1053 | A run whose first command fails with text like the marker: no agent task, and the restart after it reaches the system |
| Policy.GatePolicy | scripts/skill-policy.ts:76-96 | One decision for each operator line and no other: a confirmation exactly when the first later directive that is not in another branch is neither an operator block nor a prompt, asking for readiness exactly when that one is a step |
| Policy.PolicyMatchesRun | scripts/skill-policy.ts:76-96 | After an executed operator, every directive before its barrier is skipped by its guard and nothing else changes |
| Lint.Validate | scripts/skill-directives.ts:207-346 | The linter's pass reports exactly the problems of each directive given the names defined before it |
| LintReport.ReportedIff | scripts/skill-directives.ts:207-346 | A problem is reported if and only if a directive of that line and kind deserves it, where each kind of problem is spelled out in terms of the document: its attributes, its body, the names earlier directives introduce |
| LintReport.ExactIff | scripts/skill-directives.ts:114 | A version is exact if and only if it is three numbers with dots between and an optional suffix |
| LintSoundness.LintSoundness | scripts/skill-directives.ts:207-346 | A clean list whose captures fit their effects, with no failure outside the engine, is fully applied if and only if its joined blocks reference only defined names |
| LintSoundness.WorkDefines | scripts/skill-directives.ts:174-180 | The names the engine binds for a capture are those the linter takes it to define |
| LintSoundness.StdoutBinds | scripts/skill-apply.ts:625-651 | A stdout capture binds exactly its names, or fails outside the engine |
| LintSoundness.LintMissesSplitReference | scripts/skill-directives.ts:182-188 | A reference broken over three lines has no lint problem, is not defined when the block is shown, and defers the block in an install |
| SecondRun.HandledIsPresent | scripts/skill-apply.ts:669-836 | After a step that was neither bounced nor deferred, the self-check of a local directive finds it present |
| SecondRun.StepGrows | scripts/skill-apply.ts:669-836 | Later directives of other kinds only add to the files a local directive looks at |
| SecondRun.SecondRunSkips | scripts/skill-apply.ts:144-216 | Over what a fully applied install left, with directives of different kinds writing different files, non-blank values and scalar merge keys, a second run skips every local directive whose guard it meets only if the first did; the skip is all that changes |
| SameInputs.RunsAgree | scripts/skill-apply.ts:593-597 | With the same inputs two runs agree on every guard variable, whatever trees and commands they see |
| SameInputs.RerunSkips | scripts/skill-apply.ts:913-947 | With the same inputs binding every guard variable, the second run skips every local directive |
| SameInputs.SecondRunWritesNothing | scripts/skill-apply.ts:669-836 | The second run writes no file the local directives own and journals nothing about one |
| ReferenceProse.Slice | scripts/skill-apply.ts:392-436 | The slicer's loop computes the trimmed, joined sections |
| ReferenceLines.SectionsAre | scripts/skill-apply.ts:392-436 | One section for each reference heading of level two outside every fence; it holds the lines from there to the next such heading that are under it and in no nc: fence |
| ReferenceProse.SlicedProse | scripts/skill-apply.ts:392-436 | The lines of the returned slice are those of its sections with one blank line between two; the sections together are exactly the lines under a reference heading and in no nc: fence, in order, each section losing only its trailing blank lines and its last line's trailing space |
| ReferenceProse.SliceIsIdempotentIff | scripts/skill-apply.ts:392-436 | For every text, slicing its slice changes nothing if and only if no section's last line, once trimmed, has become a level 1 or 2 heading outside a fence, unless it is a reference heading right after exactly one blank line |
| ReferenceProse.SliceIsIdempotent | scripts/skill-apply.ts:392-436 | Slicing a slice of text whose only line terminator is the newline changes nothing |
| ReferenceProse.SliceHoldsOnlyReference | scripts/skill-apply.ts:392-436 | For every text, all lines of the slice read again are under a reference heading and in no nc: fence if and only if no section's trimmed last line has become another level 1 or 2 heading |
| ReferenceProse.ReturnNotIdempotent | scripts/skill-apply.ts:423-436 | A heading hidden by a carriage return appears in the slice and ends the second slice |
| CliTools.FindSpans | scripts/skill-pins.ts:387-409 | The character loop computes the spans the scanner automaton records |
| CliTools.SpansAreTopObjects | scripts/skill-pins.ts:387-409 | On every well-formed array the recorded spans are those of its top-level objects, in order |
| CliTools.SpanOfElement | scripts/skill-pins.ts:387-409 | With objects only, span k is the lines of the braces of element k where they stand in the text |
| CliTools.ScanCliTools | scripts/skill-pins.ts:374-427 | The entry loop computes pins and problems, which CliTools.ReportsAre and CliTools.ScansCleanlyIff say in terms of the entries |
| CliTools.PinsAlign | scripts/skill-pins.ts:374-427 | Without a problem, pin k has the name and version that the last name and version members of element k hold, both accepted, and its line is the only version line between that element's braces |
| CliTools.ScansCleanlyIff | scripts/skill-pins.ts:374-427 | A well-formed array scans without a problem if and only if its entries are on lines of their own and each has an accepted name, an exact version and one version line |
| CliTools.ReportsAre | scripts/skill-pins.ts:374-427 | In an array of objects on their own lines exactly the bad entries are reported, by index, and exactly the good ones pinned |
| CliTools.HasVersionIff | scripts/skill-pins.ts:240-243 | A line has a version field exactly when it holds the quoted word, space and a colon |
| CliTools.NpmNameIff | scripts/skill-pins.ts:37 | A package name is one part, or a scope and a part |
| CliTools.PinsAscend | scripts/skill-pins.ts:410-414 | Different entries' pins are on different lines, in array order |
| PinSync.GroupPins | scripts/skill-pins.ts:533-545 | Each package's group is exactly the pins of that name, all of them, in scan order |
| PinSync.ClassifyAll | scripts/skill-pins.ts:615-641 | Every package the shadow or a skill names and on which they disagree is in exactly one of three lists, in name order, by its three versions: bumped when only the shadow left the version it was generated at, conflicting when both did and differ, stale otherwise |
| PinSync.Repo.ReplaceFile | scripts/skill-pins.ts:754-764 | A temporary file is written, then renamed over the target; whichever of the two fails, every file keeps its bytes, and the temporary file stays only if it cannot be removed |
| PinSync.Repo.RestoreFiles | scripts/skill-pins.ts:831-842 | Written files are put back; those that cannot be are named |
| PinSync.Repo.SyncPins | scripts/skill-pins.ts:775-868 | Refused: every file has its original bytes but for those named stuck. Synced: the check succeeds |
| PinSync.RefusedSyncKeepsFiles | scripts/skill-pins.ts:775-857 | Whichever write fails, a refused sync leaves every skill file but the stuck ones, and both generated files, as they were |
| PinOutcome.SyncOutcome | scripts/skill-pins.ts:775-868 | A sync refuses before any write if and only if the pins are in trouble, the shadow is missing, some package has three different versions, a bump is not exact, an edit does not find its line or the skill lint objects; else, if no write fails, it succeeds if and only if the second scan shows exactly the bumped packages at their new versions |
| PinOutcome.ConflictRefuses | scripts/skill-pins.ts:615-641 | One package with three different versions in skill, shadow and generation refuses the sync and changes nothing |
| PinOutcome.StuckIsFailed | scripts/skill-pins.ts:831-857 | A refused sync names a file as stuck only if putting it back failed |
| PinSync.SyncMovesExactlyTheBumps | scripts/skill-pins.ts:740-752 | A sync that succeeds leaves as many pins of each package, at the shadow's version if only the shadow moved and at the old one otherwise |
| PinSync.SyncedFiles | scripts/skill-pins.ts:790-848 | After a sync that succeeds, a file without a bumped pin has its bytes, and any other is its old lines, each with the edits of its own bumped pins in turn and no other change; every edit found its line |
| PinSync.MovesAreBumpedPins | scripts/skill-pins.ts:790-815 | The edits made are those of every scanned pin of a bumped package, to the shadow's version, and of no other pin |
| PinSync.LineEdited | scripts/skill-pins.ts:796-813 | A line with one bumped pin is that pin's edit of the old line |
| PinSync.CheckedSyncIsIdle | scripts/skill-pins.ts:657-663 | Where the check succeeds, sync bumps nothing and changes no skill file |
| PinSync.SecondSyncIsIdle | scripts/skill-pins.ts:775-868 | A second sync has nothing to do |
| PinSync.GenerateThenCheck | scripts/skill-pins.ts:871-888 | Generate makes the check succeed, changes no skill file, and drops no pending bump unless forced |
| PinOutcome.GenerateOutcome | scripts/skill-pins.ts:871-888 | Generate rewrites the two files if and only if there is no trouble and, unless forced, no pending bump |
| PinOutcome.CheckIs | scripts/skill-pins.ts:657-663 | The check succeeds if and only if the pins are without trouble and both generated files list every pinned package at its version with its places, and what is not covered |
| DotEnv.ReadEnvKey | setup/environment.ts:17-35 | The reader's loop returns the first assignment's trimmed value, or nothing when blank |
| DotEnv.RewriteLines | setup/set-env.ts:51-61 | The pass over the file's pieces, each a line with its newline, and the set of keys it found |
| DotEnv.EnvFile.UpsertEnvVars | setup/set-env.ts:37-81 | All settings are committed together, or the first invalid pair or a failed rename leaves the file as it was and is named |
| EnvLines.UpdatedIs | setup/set-env.ts:37-81 | Line by line: the first line that sets a written key becomes its new setting, later ones go, every other line stays, and the settings no line set come last; a key is reported as existing exactly when a line set it |
| EnvLines.BodyIs | setup/set-env.ts:51-62 | The lines are those of the file; only a last line without a newline gets one |
| EnvLines.ValidIff | setup/set-env.ts:41-44 | Settings are accepted exactly when every key is capitals, digits and underscores after a capital and every value is one line without a null character |
| EnvLines.ReadIs | setup/environment.ts:17-35 | The first line that gives the key a value decides: its value trimmed, or nothing when it is blank |
| DotEnv.EnvFile.RemoveEnvVar | setup/set-env.ts:89-97 | The key is reported exactly when the pattern matches somewhere; then the first match, up to and with its newline, is deleted and every other byte kept; else the file is untouched |
| DotEnv.EnvFile.UpsertEnvKey | setup/environment.ts:41-58 | The lines edited in place, or the blank tail dropped and one line added |
| DotEnv.UpdateIsRead | setup/set-env.ts:37-81 | Each written key reads as its trimmed value and is assigned exactly once |
| DotEnv.UpdateKeepsOthers | setup/set-env.ts:37-81 | Every key not written reads as before, except that a key which only trims to a written key is no longer set |
| DotEnv.SecondUpdateIsIdle | setup/set-env.ts:37-81 | A second identical update changes no byte |
| DotEnv.RemoveUnreadsIff | setup/set-env.ts:89-97 | After any update, removing a written key leaves it unread if and only if the first match is the written line and what its value holds after a terminator does not set the key again, or the match is elsewhere and takes the newline before the written line, or the value is blank |
| DotEnv.RemoveAfterUpdate | setup/set-env.ts:89-97 | When the first match is the written line and its value holds no terminator, removing the key deletes that line and nothing else, and the key is unread and unassigned |
| DotEnv.ReturnMisleadsRemove | setup/set-env.ts:93-95 | A file with a carriage return in a line, updated with a key: the removal of that key deletes other text and leaves the key readable |
| DotEnv.KeyIsRead | setup/environment.ts:41-58 | The single-key writer's key reads as the trimmed first line of its value, whatever the value |
| DotEnv.KeyKeepsOthers | setup/environment.ts:41-58 | Every other key reads as before, unless a further line of the value sets it and no line before the written one does; then it reads as the value's line sets it |
| DotEnv.UpdateGrows | setup/environment.ts:50-57 | Updating a key that is there replaces its line by the lines of the setting and adds an empty line at the end |

## Left out

Assumed about the outside:

- The process lock and the setup lock are exclusive, and the worker is the only writer of its job file.
- A save writes a temporary file and renames it; the rename is atomic, and its error may come before or after the rename.
- File reads succeed, and directories, permissions and symbolic links are not modelled; a path is a key of a map.
- Undo and second-run theorems speak of paths that commands leave alone, except that `git show` may write the destination it was given.
- Undo commands in the journal run on the side; what they do to the tree is theirs. One that throws, like any file operation of the removal that throws, ends the removal.

Parameters of the model:

- Regular expressions of `validate:`, case mapping, dot-path selection, JSON parsing and printing of merged arrays, step captions and dependency probing are arbitrary functions.
- The pin scanner as a whole, the rewriting of one pin's line, and the lint of an edited skill are parameters of the sync transaction, which is proved for all of them.
- The texts of file-system and JSON errors are parameters; those of reports and problems are modelled by their kind and data, not their wording.
- JSON key order, inherited properties such as `constructor`, and surrogate pairs are not modelled.
- Attributes named `__proto__` are taken like any other name.

Not modelled:

- The worker's last status call after its final save, whose result is ignored, and the ready callback.
- Remote choice, the text of the fetch and show commands of a branch copy inside the engine, and the resolver hook for dependency commands.
- `planSkill`, `firstFailureHint`, `proseFor`, `stepLabel`, `lintReferenceFloor`, `lintGateAmbiguity` and `extractOfferUrl`: presentation, or easy members.
- `scanSkill`, `scanSkillFiles`, `leftoverMentions` and the semver, pip and Dockerfile patterns: inputs of the pin transaction.
- A write of a generated pin file that fails: the run ends with an exception after the skills were changed; the model records this outcome and what is left, and claims nothing more.
- A removal without an `exec`: it calls no undo command; the model is always given one.
- File modes, the names of temporary files, and the cleanup of the temporary file of an `.env` update.

Contracts with a condition:

- Removal.RemovalFinishes: merged files that something else edited are excluded; whether such a file still parses is decided by the JSON parser, a parameter.
- Undo.UndoRestores: copies that stopped half way are excluded, because they were never journaled (Undo.HalfCopyStays), and so is a removal that does not reach its end (Removal.RemovalFinishes).
