# TokenJam: a verified model of its state machines and text rewriting

TokenJam collects telemetry from coding agents. Its hard parts are not the reports it prints but the state it keeps
and the files it edits on the user's machine. This project models those parts in Dafny and proves what they promise.

**Span delivery** (`sdk-ts/src/client.ts`, `span-builder.ts`). `Delivery` is a machine whose steps are the atomic
pieces of the client's asynchronous methods: a send, a timer tick, a shutdown, a reply to one of any number of
posts in flight, the end of one post's back-off; `DeliveryRuns` proves what every schedule of them keeps.
`Client` holds the class with the mutable buffer, each of whose methods is one step of the machine, and the retry
loop of one post, against which the machine is checked.
`Statuses` says in HTTP statuses what loop and machine do with any server.
`Otlp` is the wire encoding with the reader that undoes it, `Ingest` the server's own reader and what arrives there, `Doubles` how JavaScript prints the integers among its
numbers, and `SpanBuilders` the mutable builder that feeds the buffer.

**Shell start-up files** (`cmd_onboard.py`, `cmd_uninstall.py`). `TextScan` gives the regular expressions as the
leftmost, non-greedy scans they denote, on characters. `ShellRc` has the edits, `Refresh` what replacing managed
blocks keeps, `RcPipeline` and `RcBlocks` the results over repeated onboarding and uninstalling, `RcLines`, `RcLastLine`
and `RcRotation` the view of a file as lines and OTEL blocks, `RcWrapped` the round trip of files that hold blocks and
wrappers of earlier runs and releases, `RcPath` a third writer and what it leaves, `ClaudeWrapper` the wrapper function
line by line, `ReTemplate` the template that a replacement takes it for, `RcFiles` the files themselves. `ShellEnv` reads
`export` lines as the shell does, and says what it gets out of the files written.

**The Codex config** (`cmd_onboard.py`). `Codex` has the scans that cut TOML tables out of a text they do not parse
and `CodexScans` their laws; `CodexRewrite`, `CodexConverges`, `CodexSettles`, `CodexPurge` and `CodexLines` prove what
repeated rewrites leave and keep, `CodexIndented` what they take too much. `CodexServer` and `CodexLegacy` say in the
words of the file which tables are ours, `CodexUnforced` what a run without --force keeps, `CodexEnv` what Codex reads.

**Settings, launchd, demo configs.** `Settings` is the in-place wiring of Claude Code's settings tree, `SettingsHooks` what it
does to hooks of the user's that share an entry with ours, `SettingsWords` what is written and what counts as ours,
literally; `Launchd` the
install protocol against a launchd whose exit codes may lie; `DeepMerge` and `DemoConfig` the merge of the demo
agents' config blocks, as a function on trees and in place on dicts that end up shared, `DemoSweep` what it leaves in
each config file.

**The rest.** `UiCache` is the page cache with writers in between; `Versions`, `Launcher` and `LauncherWalk` the npm wrapper;
`Combination` the order of questions and backfills in the combined onboarding, `CombinationAsks` which questions those
are, from the command line and the config alone, `AnalysisSpan` the span it settles;
`Scoreboard` the order of report rows.

Some properties turned out to hold only under a condition that the code does not check. Each is stated with the
exact condition, in both directions, and with an input that fails:

- Rotating the shell secret (`RcRotation.RotationByLines`, `ShellRc.SecretAbsorbed`): every start marker has an end
  marker below it, and the file does not end in a bare legacy marker. A file that is a bare start marker fails
  (`RcLines.OrphanMarkerBreaksRotation`).
- One wrapper block after every run (`RcWrapped.OneWrapper`, `RcBlocks.ExactlyOne`): there was at most one wrapper among
  the lines, and no start marker without its end. A file of just the start marker never gets the wrapper
  (`RcBlocks.OrphanWrapperMarker`).
- A file without managed text comes back from onboarding and uninstalling (`RcPath.ComesBackExactly`): every run finds
  `tj` on PATH, or the file already holds the marker of the PATH block. Where a run appends that block nothing takes it
  away again (`RcPath.PathBlockStays`).
- Refreshing inserts the wrapper as it is (`ClaudeWrapper.InsertedAsItIs`): no backslash in the path of `tj` is followed by
  a letter, a digit or a backslash. `re.sub` takes the block for a template, and raises on `C:\Users\me\tj`.
- Survival of the user's shell lines (`RcLines.ForeignLinesSurvive`): no `export` line comes to follow a legacy block. The line
  `export EDITOR=vi` under the legacy marker is lost (`RcLines.SwallowedExport`).
- Values read back as sent (`Otlp.RoundTrip`): integers are below 10^21 and turn into another double
  with one digit less. 2^60
  arrives as 1152921504606847000 (`Otlp.TwoTo60IsChanged`), 10^21 not at all (`Otlp.TenTo21IsLost`).
- Every span delivered by a healthy server (`DeliveryRuns.HealthyServerGetsEverything`): every span can be encoded. A
  value that `String` throws on, such as an object without a prototype, takes its whole batch with it
  (`DeliveryRuns.UnencodableIsLost`).
- Recognition of our own status line (`Settings.StatuslineTwice`): the path of `tj` ends in "tj" or holds the marker.
  `C:\tj.EXE` is not recognised by the second run (`Settings.OwnStatuslineNotRecognised`).
- Survival of the user's hooks (`SettingsHooks.WireKeepsHooks`, `SettingsHooks.UnwireKeepsHooks`): no entry of ours that is
  updated or removed lists a hook of theirs. A command added to our entry is lost
  (`SettingsHooks.SharedEntryIsReplaced`).
- Associativity of the merge (`DeepMerge.Associative`): no value stands between two dicts the last of which adds
  something. `{x: {}}`, `{x: 1}`, `{x: {y: 1}}` fails (`DeepMerge.OrderMatters`).
- A changed page is noticed (`UiCache.NoticedByItsTimeOnly`): its time is another one. A page rewritten within the
  resolution of the clock stays unseen by every later request.
- The npm wrapper never starts itself (`LauncherWalk.StartsItselfExactly`, `LauncherWalk.NeverItself`): the first `tj` that the
  system finds on PATH is not the wrapper, or the wrapper's own walk finds the wrapper first as well. The two walks
  differ on a directory called `tj` in front of the wrapper (`LauncherWalk.DirectoryInFront`) and on an empty entry, which
  stands for the current directory (`LauncherWalk.EmptyEntry`): on both the wrapper starts itself.
- All questions before the first backfill (`Combination.QuestionsFirstExactly`): a stored "api" plan for OpenAI without a
  budget is asked about late (`Combination.LateQuestion`). The code differs there from its own comment, which says
  that the Codex leg asks nothing.
- Survival of the user's tables in the Codex config (`CodexIndented.UserTablesSurvive`): no indented header stands inside a
  managed table. For `[otel]`, `x = 1`, `  [profiles.a]`, `y = 2` the user's table goes with the managed one, which runs to
  the next line that starts with a bracket (`CodexIndented.IndentedTableGoes`).

## Model

| member | source | states |
|---|---|---|
| DeliveryRuns.Conservation | sdk-ts/src/client.ts:161-241 | after every interleaving of sends, ticks, shutdowns, replies and wake-ups the batches in splice order followed by the buffer are the spans sent, in order; every span is, as often as it was sent, in exactly one of buffered, in flight, delivered, dropped; the buffer is below max(1, batchSize), every batch non-empty and within that size |
| DeliveryRuns.StepKeepsInv | sdk-ts/src/client.ts:161-317 | every enabled step keeps the invariant: buffer and batch bounds, and each post's history explained by the retry rule |
| DeliveryRuns.StepAccountsForSends | sdk-ts/src/client.ts:161-241 | a step appends what it was asked to send and neither loses nor reorders anything |
| DeliveryRuns.PostsPersist | sdk-ts/src/client.ts:227-229 | no later step removes a batch, reorders batches or changes a batch's contents or the replies it has seen |
| DeliveryRuns.Terminates | sdk-ts/src/client.ts:283-316 | without new batches the remaining attempts of the posts in flight bound the number of replies and wake-ups still possible, and a whole life is bounded by the number of spans sent |
| DeliveryRuns.Progress | sdk-ts/src/client.ts:283-316 | while attempts remain some post waits for an event that can happen, and only then: no post is stuck |
| DeliveryRuns.ShutdownDrains | sdk-ts/src/client.ts:235-241 | after a shutdown, until the client is used again, the buffer stays empty, the timer off, and everything sent is in some batch |
| DeliveryRuns.HealthyServerGetsEverything | sdk-ts/src/client.ts:246-300 | with a server whose every reply is a readable 2xx, once the buffer is empty and the posts have run their course, a batch is delivered exactly when every span in it can be encoded, and the spans delivered are the spans sent, in order, exactly when all of them can |
| DeliveryRuns.UnencodableIsLost | sdk-ts/src/client.ts:224-266 | a span that cannot be encoded, sent and then shut down, ends in a batch that no server sees |
| Client.TjClient.SendSpan | sdk-ts/src/client.ts:161-166 | push, length test and splice are one step of the machine on the object's state |
| Client.TjClient.FlushBuffer | sdk-ts/src/client.ts:224-230 | the object's state moves as the machine's flush does; null is returned exactly on an empty buffer, and the encoding throws, after the splice, exactly when a span in it cannot be encoded |
| Client.TjClient.Close | sdk-ts/src/client.ts:235-241 | the timer is cleared and the rest flushed, as the machine's shutdown |
| Client.PostBatch | sdk-ts/src/client.ts:274-317 | for every sequence of replies the loop posts the same body once more than there are replies before the first with a status in 200..299 or 400..499, or maxRetries + 1 times; it ends ingested (unreadable, where the body is no JSON) exactly on the 2xx and refused exactly on the 4xx; it waits 2000 * (2^n - 1) ms over n retries; the fallback error needs a negative maxRetries |
| Client.ServerDecides | sdk-ts/src/client.ts:283-316 | the same replies decide a post the same way however its attempts interleave with everything else |
| Client.MachineAgreesWithLoop | sdk-ts/src/client.ts:274-317 | a post finished in some schedule has the outcome, the attempts and the waiting time of the loop run on its replies alone |
| Statuses.FinishedByStatus | sdk-ts/src/client.ts:283-316 | the same for every finished post of any schedule, in statuses; it is delivered exactly when the last of its replies is a 2xx |
| Statuses.RetriedByStatus | sdk-ts/src/client.ts:283-316 | a network error, and any status that is neither 2xx nor 4xx, is followed by another attempt while attempts remain, and nothing else is |
| Statuses.NothingHeldBack | sdk-ts/src/client.ts:150-241 | after a flush, a tick or a shutdown everything sent so far is in some post |
| Statuses.FullBatchesOnly | sdk-ts/src/client.ts:161-166 | a send starts a post exactly when it fills the batch, with the whole buffer and the span in it |
| Statuses.TimerRuns | sdk-ts/src/client.ts:150-160 | the timer ticks exactly between a start and the next shutdown |
| Otlp.RoundTrip | sdk-ts/src/client.ts:77-88 | for every value that can be encoded, what the exact reader of tokenjam/otel/otlp_parsing.py:28-41 makes of it is the value exactly when it nests only strings, booleans, finite non-integer numbers, arrays and integers below 10^21 in magnitude that rounding to one digit less, down or up, turns into another double |
| Otlp.ReadsBackAsDouble | sdk-ts/src/client.ts:80 | a reader that rounds to doubles gets every integer below 10^21 back, also where the exact reader does not |
| Otlp.SafeIntegersSurvive | sdk-ts/src/client.ts:80 | every integer up to 2^53 in magnitude reads back as itself |
| Otlp.TwoTo60IsChanged | sdk-ts/src/client.ts:80 | 2^60 is sent with its shortest digits and read as 1152921504606847000 |
| Otlp.TenTo21IsLost | sdk-ts/src/client.ts:80 | 10^21 is sent in scientific notation, which the integer reader does not read |
| Otlp.EncodingIsInjective | sdk-ts/src/client.ts:77-88 | two values that can be encoded have the same encoding exactly when they are the same value, but that one of an unrecognised kind counts as its text; integers of any size included |
| Doubles.ShortestReads | sdk-ts/src/client.ts:80 | the digits printed for an integer denote it: the double nearest to them, ties to even, is the integer |
| Doubles.FewestDigits | sdk-ts/src/client.ts:80 | no number with fewer significant digits denotes that double |
| Doubles.PrintedExactly | sdk-ts/src/client.ts:80 | the digits printed are the exact ones just when dropping the last one that is not zero, rounding down or up, gives another double |
| Doubles.NearestIsNearest | sdk-ts/src/client.ts:80 | no double is nearer to a number than the one it rounds to |
| Otlp.UnixNanoReads | sdk-ts/src/client.ts:71-75 | the timestamp string reads as ms * 1,000,000 for every integer ms, zero and negatives included, and as no number for an invalid date |
| Otlp.SpanEncodingFaithful | sdk-ts/src/client.ts:90-120 | two spans that can be encoded have the same encoding exactly when they agree in every field that is sent, in their events and in their attributes in order, up to the spelling of dates, empty for absent, and values sent as their text |
| Otlp.BatchEncodingFaithful | sdk-ts/src/client.ts:246-266 | two bodies are equal exactly when they carry the same spans in the same order |
| Ingest.ArrivesAsSent | tokenjam/otel/otlp_parsing.py:96-215 | what the server reads of a span that was sent has the span's own trace id, span id, parent, name, kind, status, message, times, attributes and events, with the numbers of the protocol; it is declined exactly when it starts at the epoch, and the server raises exactly when a time or a value cannot be read |
| Ingest.BatchArrives | sdk-ts/src/client.ts:246-266 | span number i of a body is span number i of the batch, as it arrives |
| Ingest.PortableValuesArrive | tokenjam/otel/otlp_parsing.py:28-41 | a portable value is held by the server as it was sent |
| SpanBuilders.PutGet | sdk-ts/src/span-builder.ts:146-149 | assigning a key is seen under that key only, `__proto__` under none; a known key keeps its place, a new one is put in without moving another, and keys stay listed as JavaScript lists them, integer-like ones first and ascending |
| SpanBuilders.SpanBuilder.Build | sdk-ts/src/span-builder.ts:151-156 | the span and its attribute object are new and equal the builder's, with the end time filled in from the duration, taken to whole milliseconds toward zero, only when there is none; it raises exactly when that needs a start time that is unreadable, a duration that is not finite, or an end outside the range of dates |
| SpanBuilders.BuiltSpansAreSnapshots | sdk-ts/src/span-builder.ts:32-156 | whatever sequence of setters runs on the builder after a build reaches the next span and never the one already built |
| SpanBuilders.LastCallWins | sdk-ts/src/span-builder.ts:32-100 | after any sequence of setters each field is what the last call of its own setter said, whatever is called after it |
| SpanBuilders.UncalledFieldsStay | sdk-ts/src/span-builder.ts:32-100 | a field whose setter is not called keeps its first value, and the name never changes |
| SpanBuilders.LastAssignmentWins | sdk-ts/src/span-builder.ts:73-149 | an attribute is what the last call that assigns its key said, the setters for agent, session and conversation among them |
| SpanBuilders.EndIsStartAndDuration | sdk-ts/src/span-builder.ts:151-156 | the end filled in is the start and the whole milliseconds of the duration, cut off toward zero; an end that was given stays |
| SpanBuilders.NumbersFirst | sdk-ts/src/span-builder.ts:146-149 | in front of a key that is a number below 2^32 - 1 stand only smaller numbers |
| SpanBuilders.NewNameLast | sdk-ts/src/span-builder.ts:146-149 | a new key that is no such number comes last |
| ShellRc.StripNothing | tokenjam/cli/cmd_onboard.py:1825-1850 | a text without a marker line is returned unchanged |
| ShellRc.StripBlock | tokenjam/cli/cmd_onboard.py:1825-1850 | between whole lines without a marker, exactly the block goes |
| ShellRc.SecretAbsorbed | tokenjam/cli/cmd_onboard.py:2223-2226 | for any file, writing with one secret and then another equals writing once with the second exactly when stripping leaves no marker line behind |
| ShellRc.OtelBlockIsPlain | tokenjam/cli/cmd_onboard.py:1811-1822 | the block for any port, and any host and secret that hold neither a newline nor a wrapper marker, is one the other results apply to |
| ShellEnv.ShellSeesTelemetry | tokenjam/cli/cmd_onboard.py:1811-1822 | for every file, host, port and secret, a shell that reads the rewritten file has telemetry on, the otlp exporter, http/json, the endpoint http://host:port and the header Authorization=Bearer secret |
| ShellEnv.ShellFindsTj | tokenjam/cli/cmd_onboard.py:1577-1620 | a shell that reads the file after the PATH block was added has the directory of `tj` in front of what PATH was |
| ClaudeWrapper.ClaudeBlockIsWrapper | tokenjam/cli/cmd_onboard.py:3385-3468 | the block onboarding installs, comment lines and all, is a wrapper the other results apply to, for every path of `tj` that holds neither a newline nor a wrapper marker |
| ClaudeWrapper.OnboardingWritesUsableBlocks | tokenjam/cli/cmd_onboard.py:2214-2232 | so are the OTEL blocks and the wrapper of any number of onboard runs together |
| ClaudeWrapper.InsertedAsItIs | tokenjam/cli/cmd_onboard.py:3497-3503 | the block, taken for a replacement template, stands for its own text exactly when no backslash in the path of `tj` is an escape |
| ClaudeWrapper.OnboardingIsPathFree | tokenjam/cli/cmd_onboard.py:3385-3468 | neither block holds the marker of the PATH block, for any host, secrets and path that do not |
| ReTemplate.StandsForItself | tokenjam/cli/cmd_onboard.py:3497-3503 | a replacement template of any text stands for itself exactly when no backslash in it is in front of a letter, a digit or a backslash, nor at its end |
| RcPipeline.Converges | tokenjam/cli/cmd_onboard.py:2214-2232 | from the second run on the file is the text settled with the latest wrapper, and the latest block, whatever the earlier secrets were and whatever releases the earlier wrappers came from |
| RcPipeline.FixedPoint | tokenjam/cli/cmd_onboard.py:2214-2232 | the file the second run leaves is a fixed point of all later runs that write the same |
| RcBlocks.ExactlyOne | tokenjam/cli/cmd_onboard.py:3471-3509 | after every run, the first included, there is one OTEL start marker and the latest block once; the latest wrapper is there once exactly when the kept text has no wrapper marker or one closed wrapper |
| RcBlocks.FirstOtelBlock | tokenjam/cli/cmd_onboard.py:2214-2232 | after the first run, of any file, there is one OTEL start marker exactly when the text in front of the block holds none |
| RcBlocks.WrapperBlocks | tokenjam/cli/cmd_onboard.py:3471-3509 | after every run there are as many copies of the wrapper block as there were closed wrappers in the kept text, or one where there was no marker |
| RcBlocks.OrphanWrapperMarker | tokenjam/cli/cmd_onboard.py:3492-3503 | a file of just the start marker never gets the wrapper, however often onboarding runs |
| RcPipeline.UninstallUndoes | tokenjam/cli/cmd_uninstall.py:510-537 | n onboards and an uninstall leave, up to trailing newlines, what unwiring the kept text leaves |
| RcPipeline.UninstallLeavesStripped | tokenjam/cli/cmd_uninstall.py:510-537 | where no wrapper was there before, n >= 1 onboards and an uninstall leave exactly what stripping alone leaves, up to trailing newlines |
| RcPipeline.RoundTrip | tokenjam/cli/cmd_uninstall.py:510-537 | for a file without managed text n >= 1 onboards that find `tj` on PATH and an uninstall give the file back, up to trailing newlines |
| RcPath.ComesBackExactly | tokenjam/cli/cmd_onboard.py:1577-1620 | with runs that may append the PATH block, such a file comes back exactly when every run finds `tj` on PATH or the file holds the block's marker already |
| RcPath.PathBlockStays | tokenjam/cli/cmd_onboard.py:1577-1620 | for any file: once a run has appended the PATH block, uninstalling after any number of further runs leaves what uninstalling right before would have left, a blank line, and the block |
| RcPipeline.Untouched | tokenjam/cli/cmd_onboard.py:1825-1850 | such a file loses nothing to stripping and leaves no marker behind |
| RcLines.StripRender | tokenjam/cli/cmd_onboard.py:1840-1850 | the exact result of stripping a file of lines, sentinel blocks and legacy blocks, including the export lines a legacy pattern swallows once a block between them is gone |
| RcLines.ForeignLinesSurvive | tokenjam/cli/cmd_onboard.py:1840-1850 | every foreign line survives, in order and unchanged, exactly when none of them is an export line that comes to follow a legacy block |
| RcLines.RenderedFilesAreRepaired | tokenjam/cli/cmd_onboard.py:1825-1850 | stripping such a file leaves no marker line, so the results on repeated runs apply to any number of current and legacy blocks |
| RcLines.SwallowedExport | tokenjam/cli/cmd_onboard.py:1844-1849 | an `export` line right under a legacy marker goes with it |
| RcLines.OrphanMarkerBreaksRotation | tokenjam/cli/cmd_onboard.py:1840-1843 | a start sentinel without its end swallows the fresh block on the next run |
| RcLastLine.StripOpen | tokenjam/cli/cmd_onboard.py:1840-1850 | the exact result of stripping such a file when its last line has no newline, whatever piece it ends in |
| RcLastLine.ForeignLinesSurviveOpen | tokenjam/cli/cmd_onboard.py:1840-1850 | every foreign line of it survives exactly when no export line comes to follow a legacy block and the file does not end in a bare legacy marker |
| RcLastLine.OpenFilesAreRepaired | tokenjam/cli/cmd_onboard.py:1825-1850 | no marker line is left exactly when it does not end in a bare legacy marker |
| RcRotation.RotationByLines | tokenjam/cli/cmd_onboard.py:1840-1850 | for a file of any lines in which start and legacy markers fill their line, with or without a newline at its end, writing with one secret and then another equals writing once with the second exactly when every start marker has an end marker below it and the file does not end in a bare legacy marker |
| RcWrapped.LinesComeBack | tokenjam/cli/cmd_uninstall.py:510-537 | n >= 1 onboards with any blocks and wrappers and an uninstall of a file of lines, OTEL blocks, legacy blocks and wrappers of any release, in any number and order, leave, up to trailing newlines, exactly the user's lines that survive stripping, which are all of them if no export line comes to follow a legacy block |
| RcWrapped.LinesComeBackOpen | tokenjam/cli/cmd_uninstall.py:510-537 | the same for such a file whose last line has no newline, whatever part it ends in but a bare legacy marker |
| RcWrapped.OneWrapper | tokenjam/cli/cmd_onboard.py:3471-3509 | after every run of such a file its wrapper is there once exactly if there was at most one before |
| RcRotation.ClosedLeavesNothing | tokenjam/cli/cmd_onboard.py:1840-1850 | the same condition decides whether the results on repeated runs apply to the file |
| RcFiles.Home.InstallClaudeWrapper | tokenjam/cli/cmd_onboard.py:3471-3509 | the zshrc always gets the wrapper, the bashrc only where there is one |
| RcFiles.Home.UnwireClaudeWrapper | tokenjam/cli/cmd_onboard.py:3512-3548 | both files lose the wrapper where they exist; reported are those that changed |
| RcFiles.Home.OnboardShell | tokenjam/cli/cmd_onboard.py:2214-2232 | one run strips, appends and installs, in that order |
| RcFiles.Home.EnsureTjOnPath | tokenjam/cli/cmd_onboard.py:1577-1620 | the zshrc gets the block, behind a blank line, exactly when `tj` is missing and the marker is not there |
| RcFiles.Home.TeardownShell | tokenjam/cli/cmd_uninstall.py:510-537 | uninstalling strips the block and unwires the wrapper |
| RcFiles.LatestWrapperOnly | tokenjam/cli/cmd_onboard.py:3492-3509 | installing one wrapper and then another is installing the other, for any file: a changed wrapper reaches existing files, and a second install of the same changes nothing |
| RcFiles.WrapperRoundTrip | tokenjam/cli/cmd_onboard.py:3492-3548 | install and unwire give a file without the marker back, up to trailing newlines |
| Refresh.RefreshTwice | tokenjam/cli/cmd_onboard.py:3492-3503 | replacing the managed blocks by one and then by another is replacing them by the other, also where a start marker is never closed |
| Refresh.NoNewMarkerLine | tokenjam/cli/cmd_onboard.py:3492-3503 | a replacement splices no marker line together that was not there |
| CodexScans.NotAfterCut | tokenjam/cli/cmd_onboard.py:3256-3285 | a cut leaves no header of its own and makes none of another table, for any text: no header can form across a cut |
| CodexRewrite.CutTable | tokenjam/cli/cmd_onboard.py:3294-3310 | cutting a table takes its header and its lines and leaves the newline in front of the next table |
| CodexRewrite.ParseDoesNotMatter | tokenjam/cli/cmd_onboard.py:3214-3241 | under --force the replace and the append branch give the same text, so it does not matter whether the file parsed |
| CodexPurge.PurgeIdempotent | tokenjam/cli/cmd_onboard.py:3244-3291 | purging twice is purging once, for any text, character by character |
| CodexPurge.OtelTomlIsBlock | tokenjam/cli/cmd_onboard.py:3313-3329 | the block for any port and any secret without bracket and newline is one the results on rewrites apply to |
| CodexEnv.CodexSeesExport | tokenjam/cli/cmd_onboard.py:3313-3329 | Codex reads in the rewritten file the endpoint on the port, the protocol json, the header with the secret and no logging of prompts, whatever else the file holds |
| CodexLegacy.LegacyExactly | tokenjam/cli/cmd_onboard.py:3270-3277 | the otel tables count as the old program's exactly when a header [otel], in any case, is followed before the next opening bracket by a '#' and, past white space, "managed by ocw" in any case |
| CodexLegacy.PurgedExactly | tokenjam/cli/cmd_onboard.py:3244-3291 | the purge keeps exactly the lines outside the old server's table and, where the text is so marked, outside the otel tables |
| CodexConverges.Converges | tokenjam/cli/cmd_onboard.py:2632-2644 | for any file with at most one tj server table, from the second forced rewrite on the file is the settled text and the latest block, whatever the earlier secrets and whether or not it parses |
| CodexConverges.FixedPoint | tokenjam/cli/cmd_onboard.py:2632-2644 | the second rewrite's file is a fixed point of all later ones |
| CodexConverges.OneCopy | tokenjam/cli/cmd_onboard.py:2632-2644 | after any forced rewrite each table of ours is there exactly once and no other otel table nor the legacy server, for any file |
| CodexConverges.NothingToRetire | tokenjam/cli/cmd_onboard.py:3168-3193 | after the first rewrite no tj server is left that would be retired |
| CodexServer.RetiredExactly | tokenjam/cli/cmd_onboard.py:3168-3193 | of any text the first tj server table, up to the next line that opens with a bracket, is cut out exactly when it holds "Managed by tj" or `command`, white space, `=`, white space, `"tj"` |
| CodexServer.TakenOutExactly | tokenjam/cli/cmd_onboard.py:3168-3193 | a forced rewrite takes the tj server table out of a file exactly when that table is so marked, and always the legacy server and the otel tables |
| CodexServer.ForeignServerStays | tokenjam/cli/cmd_onboard.py:3168-3193 | a tj server table whose only commands are others than tj, and which has no note, keeps all its lines through a forced rewrite |
| CodexServer.OneServerStays | tokenjam/cli/cmd_onboard.py:3168-3193 | a file of the table with `command = "x"` keeps both lines exactly when x is not tj |
| CodexSettles.SettlesAlways | tokenjam/cli/cmd_onboard.py:2632-2644 | for every file, after as many forced rewrites as it names the tj server, in comments too, and two more, the file is some settled text and the latest block, and only the block changes from then on |
| CodexLines.ForeignTablesSurvive | tokenjam/cli/cmd_onboard.py:2564-2644 | a forced rewrite keeps every line outside the tables it takes out as it is, indentation included, in order, and adds the lines of the block; only blank lines, and white space at the end of the last line kept, may go, for files whose managed headers stand at the start of a line |
| CodexLines.StripKeeps | tokenjam/cli/cmd_onboard.py:3244-3310 | purging and stripping keep every line outside the managed tables in the same sense, whether or not the legacy mark is found |
| CodexUnforced.PresentStays | tokenjam/cli/cmd_onboard.py:2564-2640 | without --force, where there is an otel table, the lines kept are those outside the legacy tables and a tj server of ours; the user's otel tables stay |
| CodexUnforced.AbsentIsAdded | tokenjam/cli/cmd_onboard.py:2564-2640 | where there is none, the lines of the block come behind the same lines |
| CodexLines.CutAtStart | tokenjam/cli/cmd_onboard.py:3294-3310 | a cut on characters is the removal of the lines from the header to the next bracketed line |
| CodexIndented.UserTablesSurvive | tokenjam/cli/cmd_onboard.py:3294-3310 | the lines outside the managed tables as TOML divides the text all survive a forced rewrite exactly when no indented header stands inside a managed table before the next line that starts with a bracket |
| CodexIndented.IndentedTableGoes | tokenjam/cli/cmd_onboard.py:3294-3310 | of a file with an indented table of the user's under `[otel]` the rewrite leaves nothing but the block |
| Settings.SettingsFile.WireResumeBrief | tokenjam/cli/cmd_onboard.py:120-146 | the tree and the status after wiring the hook in place; where Python raises, the tree as it is then |
| Settings.SettingsFile.UnwireHook | tokenjam/cli/cmd_onboard.py:62-90 | the tree after removing the managed entries, with emptied containers dropped |
| Settings.SettingsFile.WireStatusLine | tokenjam/cli/cmd_onboard.py:1688-1710 | a foreign status line is left alone, ours refreshed, a missing one added |
| SettingsWords.ManagedExactly | tokenjam/cli/cmd_onboard.py:53-118 | an entry counts as ours exactly when one of its hooks has a command that holds the marker; looking raises exactly where hooks is true or a number other than zero |
| SettingsWords.WiredExactly | tokenjam/cli/cmd_onboard.py:97-146 | wiring leaves the entry with matcher "resume|compact" and the command "<tj> resume-brief --from-hook" in place of the first entry that runs the brief, or behind all others, changes no other entry, and skips settings of another shape |
| SettingsWords.UnwiredExactly | tokenjam/cli/cmd_onboard.py:62-167 | unwiring leaves exactly the entries that do not run the command, as often as they were there, for the brief under SessionStart and for the cap under PostToolUse |
| SettingsWords.EmptiedGoes | tokenjam/cli/cmd_onboard.py:62-90 | something is removed exactly when an entry runs the command, and then neither an empty list nor an empty `hooks` is left |
| SettingsWords.StatuslineExactly | tokenjam/cli/cmd_onboard.py:1669-1710 | a missing or null status line becomes "<tj> statusline", one that runs "tj statusline" is brought up to date, any other stays as it is |
| Settings.WireTwice | tokenjam/cli/cmd_onboard.py:120-146 | a second run reports "kept", or "skipped" again, and changes nothing |
| Settings.WireFrame | tokenjam/cli/cmd_onboard.py:120-146 | every other key, every other hook and every foreign entry keep their values and order |
| Settings.UnwireFrame | tokenjam/cli/cmd_onboard.py:62-90 | the same for unwiring, for either hook |
| Settings.UnwireAfterWire | tokenjam/cli/cmd_onboard.py:120-167 | unwiring after wiring is unwiring alone up to empty or null containers, and raises exactly when that does |
| Settings.WireCommutesWithCleanup | tokenjam/cli/cmd_onboard.py:2161-2166 | wiring our hook and removing the retired one give the same tree in either order, up to the order of keys |
| SettingsHooks.WireKeepsHooks | tokenjam/cli/cmd_onboard.py:120-146 | every hook of the user's stays in the list, in order, exactly when the entry of ours that is updated lists no other hook |
| SettingsHooks.UnwireKeepsHooks | tokenjam/cli/cmd_onboard.py:62-90 | the same for unwiring, for either hook: exactly when no entry of ours lists another hook |
| SettingsHooks.SharedEntryIsReplaced | tokenjam/cli/cmd_onboard.py:120-146 | a command that the user added to an entry of an older release goes when the entry is updated |
| Settings.StatuslineTwice | tokenjam/cli/cmd_onboard.py:1680-1710 | a second run keeps the status line the first one wrote exactly when the path found for `tj` ends in "tj" or holds the marker; nothing else in the tree changes |
| Settings.OwnStatuslineNotRecognised | tokenjam/cli/cmd_onboard.py:1680-1710 | with `C:\tj.EXE` the second run takes the line the first one wrote for a foreign one |
| Launchd.ParseArguments | tokenjam/cli/cmd_onboard.py:3767-3791 | the loop computes the first argument block of the text |
| Launchd.ParseUndoesPrint | tokenjam/cli/cmd_onboard.py:3767-3791 | from any text holding the listing of some arguments the parser recovers them exactly when each is non-blank, trimmed, without line break and no closing brace |
| Launchd.NoneMeansNoHeader | tokenjam/cli/cmd_onboard.py:3767-3791 | None is returned exactly when no line, trimmed, starts with "arguments = {" |
| Launchd.Session.Install | tokenjam/cli/cmd_onboard.py:3879-3952 | the commands issued are a prefix of two rounds of bootout, enable, bootstrap, print, and the outcome is the verdict on their answers |
| Launchd.InstallsExactly | tokenjam/cli/cmd_onboard.py:3879-3952 | for every launchd: a failed first bootstrap ends the run unless its output says in some case that the service is already bootstrapped; otherwise the run succeeds exactly when the first or the second print lists the argv, starts over only when the first does not, and is unconfirmed exactly when the last print failed or listed nothing |
| Launchd.AlreadyMeans | tokenjam/cli/cmd_onboard.py:3888-3898 | a failed bootstrap is forgiven exactly for that phrase in one of the two outputs |
| Launchd.SuccessIsObserved | tokenjam/cli/cmd_onboard.py:3794-3952 | for every launchd, however its exit codes lie, success means that the last command was a print that exited 0 and showed exactly the argv of the plist |
| Launchd.WellBehavedSucceeds | tokenjam/cli/cmd_onboard.py:3879-3952 | a launchd that does what it says is installed to from every prior state, exactly unless an old registration outlives both bootouts |
| Launchd.AtMostTwoBootstraps | tokenjam/cli/cmd_onboard.py:3879-3952 | no sequence of answers makes it bootstrap more than twice |
| DeepMerge.MergeAt | examples/alerts_and_drift/_shared.py:100-105 | path by path: what the target has stays, every path of the source is there unless a value of the target is in its way, and nothing else is |
| DeepMerge.SamePathsSameTree | examples/alerts_and_drift/_shared.py:100-105 | the paths determine the tree, so the line above determines the merge |
| DeepMerge.MergeTwice | examples/alerts_and_drift/_shared.py:100-105 | merging the same block again changes nothing |
| DeepMerge.Associative | examples/alerts_and_drift/_shared.py:100-105 | merging is associative exactly when nowhere a value stands between two dicts the last of which has something to add |
| DeepMerge.OrderMatters | examples/alerts_and_drift/_shared.py:100-105 | with `{x: {}}`, `{x: 1}` and `{x: {y: 1}}` the two groupings give the last and the first |
| DemoConfig.PyDict.MergeMissing | examples/alerts_and_drift/_shared.py:100-105 | the in-place recursion turns the target into the merge and touches no dict of the source, although dicts of the source end up in the target |
| DemoConfig.MergeIntoTwice | examples/alerts_and_drift/_shared.py:108-126 | a file that was merged into is left as it is by the next merge |
| DemoConfig.ConfigFiles.EnsureDemoAgentConfig | examples/alerts_and_drift/_shared.py:47-62 | the loop over the search path with its fallback file, including what is written before a file makes it raise |
| DemoConfig.EnsureTwice | examples/alerts_and_drift/_shared.py:47-62 | running the helper again changes no file and reports the same files, also where it raises half-way |
| DemoConfig.OtherAgentsUntouched | examples/alerts_and_drift/_shared.py:47-62 | in every file everything outside the agent's own table stays |
| DemoConfig.SeededEverywhere | examples/alerts_and_drift/_shared.py:47-62 | in every file reported the whole block is there, or a value of the file is in its way |
| DemoSweep.SeededExactly | examples/alerts_and_drift/_shared.py:108-126 | in the agent's table of a file what is there stays, and every path of the block is added unless it is there or a value is in its way |
| DemoSweep.EnsuredExactly | examples/alerts_and_drift/_shared.py:47-62 | every file of the search path that is there is merged into, and reported in that order; only where none is, `.tj/config.toml`; a file that cannot be merged into makes it raise with the files in front of it merged and the others as they were |
| UiCache.UiServer.LoadIndexHtml | tokenjam/api/app.py:143-167 | the pair in the cache moves only on a new time and a successful read, and the page served is the cached one |
| UiCache.RunsStayCoherent | tokenjam/api/app.py:143-167 | in every run, with writers also between a request's stat and its read, and a new time with every write: when the cached time is the file's the page is the file's text, and it is never anything but a text the file has held, or empty |
| UiCache.ServesCurrentText | tokenjam/api/app.py:143-167 | after any run an undisturbed request that can read the file serves its text; one that cannot leaves the pair alone |
| UiCache.NoticedByItsTimeOnly | tokenjam/api/app.py:149 | a changed text is served exactly when its time is not the cached one, by the next and all following requests |
| Versions.IsOlder | npm-wrapper/bin/tj.js:182-192 | the loop decides the lexicographic order of the components with zeros to the right |
| Versions.StrictWeakOrder | npm-wrapper/bin/tj.js:182-192 | the order is irreflexive and transitive, and so is not being comparable |
| Versions.Trichotomy | npm-wrapper/bin/tj.js:182-192 | exactly one of older, younger and equal up to trailing zeros |
| Versions.TrailingZero | npm-wrapper/bin/tj.js:175-192 | ".0" after any version string, however odd, changes no comparison |
| Versions.ReadsDotted | npm-wrapper/bin/tj.js:175-180 | a release number reads as its components |
| Versions.SmallerIsOlder | npm-wrapper/bin/tj.js:175-192 | of two releases that agree up to some component the one with the smaller number there is the older one |
| Versions.DigitsInFront | npm-wrapper/bin/tj.js:175-180 | what follows the digits of a component does not count, and a component without digits is zero |
| Launcher.ResolveOnPath | npm-wrapper/bin/tj.js:118-137 | the first executable of the walk, directory by directory and extension by extension |
| Launcher.Start | npm-wrapper/bin/tj.js:282-357 | the eligible runners are started in order up to the first that starts, whose status is the exit code, 1 for a signal; 1 when none starts |
| Launcher.FailsClosed | npm-wrapper/bin/tj.js:84-151 | on every machine: with a known version uvx and pipx are started only on exactly that version, which they could resolve, and the one other command is bare `tj`, where the wrapper's walk found one that is not the wrapper |
| Launcher.TriedExactly | npm-wrapper/bin/tj.js:65-116 | with a known version the commands tried are, in order and all of them, pinned uvx and pipx, each where it is there and answers the pinned probe with 0, and the installed `tj` |
| Launcher.TriedUnpinned | npm-wrapper/bin/tj.js:84-99 | without a version uvx and pipx are tried on whatever release there is, without that probe |
| Launcher.CodeExactly | npm-wrapper/bin/tj.js:300-356 | of the commands started all but the last failed to start; its status is the exit code, 1 for a signal |
| Launcher.WalksExactly | npm-wrapper/bin/tj.js:118-137 | the walk ends at the first executable, directories before extensions and empty entries left out, and finds nothing only where there is none |
| Launcher.InstalledExactly | npm-wrapper/bin/tj.js:118-151 | `tj` counts as installed exactly when the first executable of that name on the walk does not lead to the wrapper's own file |
| LauncherWalk.StartsItselfExactly | npm-wrapper/bin/tj.js:118-151 | for every machine the wrapper starts itself exactly when neither uvx nor pipx gets anywhere, its own walk along PATH finds something else first, and the system's walk finds the wrapper first |
| LauncherWalk.NeverItself | npm-wrapper/bin/tj.js:118-151 | it never does where no PATH entry is empty, both walks look in the same places, and no place holds a `tj` that only one of them would take |
| LauncherWalk.DirectoryInFront | npm-wrapper/bin/tj.js:118-137 | with a directory called `tj` on PATH in front of the wrapper, and without uvx and pipx, the wrapper starts itself |
| LauncherWalk.EmptyEntry | npm-wrapper/bin/tj.js:118-137 | so it does with an empty PATH entry, the wrapper in the current directory and another `tj` behind |
| Launcher.NothingStarted | npm-wrapper/bin/tj.js:337-356 | nothing starts exactly when no eligible runner can be started, and the exit code is 1 then |
| Combination.Wizard.Combination | tokenjam/cli/cmd_onboard.py:2793-2897 | the questions asked, the backfills started and the config written by the flow, in order |
| CombinationAsks.AskedExactly | tokenjam/cli/cmd_onboard.py:2761-2897 | for every call and config each question is asked exactly where it has to be: the plan of an agent in use that neither the command line nor the config has (or that --force made the Claude leg forget), the ceiling of one answered "api", the daily budget of one billed by use without a budget given, the span where nothing settles it and someone is there to answer |
| CombinationAsks.AskedInOrder | tokenjam/cli/cmd_onboard.py:2761-2897 | about each agent they are asked in this order, each once |
| CombinationAsks.FreshQuestions | tokenjam/cli/cmd_onboard.py:2761-2897 | without a config the questions of the whole run are, in order: the surfaces, all about Claude, all about Codex, the span |
| CombinationAsks.BackfilledExactly | tokenjam/cli/cmd_onboard.py:2832-2897 | a backfill is started once for each agent in use, for Claude exactly where there are transcripts |
| AnalysisSpan.StorageConfig.ApplyAnalysisSpan | tokenjam/cli/cmd_onboard.py:1108-1160 | the fields move as the settling function says, the prompt is shown exactly when nothing else settles the span, and it raises exactly when the span chosen cannot be read, leaving retention alone |
| AnalysisSpan.SpanIsBacked | tokenjam/core/analysis_span.py:61-117 | for every prior storage, flag and answer, the settled retention is never shorter than the settled span, was never lowered, is given up only for an unbounded span, and a later run without a flag asks nothing and changes nothing |
| AnalysisSpan.OldRetentionIsTheSpan | tokenjam/core/analysis_span.py:83-99 | a config that only says how long to keep reaches as far back after settling as before, and keeps as long |
| AnalysisSpan.RaisesExactly | tokenjam/core/analysis_span.py:61-80 | onboarding raises exactly when the flag, or without one the stored span, cannot be read, or when the retention to adopt is no positive number of days |
| AnalysisSpan.SpanChosen | tokenjam/cli/cmd_onboard.py:1108-1160 | the span stored is the flag, else the answer where the question is asked, else the stored one, else the retention in days, else 90 days; the question is asked exactly where the answer is used |
| AnalysisSpan.RetentionChosen | tokenjam/core/analysis_span.py:102-117 | retention is the larger of what it was and the span, and goes for an unbounded span |
| Combination.QuestionsFirstExactly | tokenjam/cli/cmd_onboard.py:2832-2897 | for every call and config, exactly when a question comes after the first backfill: both agents with transcripts, no plan flag, a stored OpenAI plan, and --force or a plan billed by use without a budget |
| Combination.LateQuestion | tokenjam/cli/cmd_onboard.py:2832-2897 | with plans "pro" and "api" stored, transcripts and no budget, the daily budget for Codex is asked after the Claude backfill has started |
| Combination.FreshMachineAsksFirst | tokenjam/cli/cmd_onboard.py:2832-2897 | without a config every question precedes the first backfill, for any surfaces, plans and flags |
| Combination.NothingAskedTwice | tokenjam/cli/cmd_onboard.py:2761-2790 | no run asks a question twice: what was hoisted is not asked by a leg, and the second leg finds the span written |
| Combination.PlansWritten | tokenjam/cli/cmd_onboard.py:1898-2001 | each agent ends with the plan of the flag, else the stored one, else the answer; only --force with the Claude leg forgets a stored one |
| Scoreboard.ScoreboardRows | tokenjam/cli/cmd_optimize.py:1509-1529 | the rows are a permutation of the findings' rows, sorted by the key |
| Scoreboard.RowsAreFindings | tokenjam/cli/cmd_optimize.py:1510-1524 | there is a row for each finding with a summary, under its rank and with its figure, and no other |
| Scoreboard.FigureShown | tokenjam/cli/cmd_optimize.py:1398-1416 | a row is sorted by tokens where models are local and by dollars otherwise, and by nothing for the two analyzers that are never priced |
| Scoreboard.OneOrder | tokenjam/cli/cmd_optimize.py:1526-1528 | the key leaves no order open |
| Scoreboard.FirstIsLargest | tokenjam/cli/cmd_optimize.py:1526-1528 | the first row is the largest figure, larger figures stand above smaller ones, equal ones and unpriced rows in rank order, unpriced ones last |
| Scoreboard.BucketsPartition | tokenjam/cli/cmd_optimize.py:1058-1065 | each finding is in exactly one of major, unranked and minor, for every threshold and either setting of --expand |
| Scoreboard.BucketsExactly | tokenjam/cli/cmd_optimize.py:1058-1065 | major are the shares at or above the threshold, or all with --expand, minor those below without it, unranked those without a share |
| Scoreboard.ResolveAnalyzerNames | tokenjam/cli/cmd_optimize.py:78-91 | every analyzer asked for, by either of its names, is there once, in the order first asked |
| Scoreboard.AskedExactly | tokenjam/cli/cmd_optimize.py:78-91 | the analyzers run are those asked for, "placement" standing for "downsize" |

## Left out

- Rendering, prompt wording, JSON output shapes, attribute-name tables, authentication: formatting, or easy members.
- Network, subprocesses, the file system and DuckDB: their answers are parameters of the models.
- Of `tokenjam/core/*` only `analysis_span.py` is part of this model: not reports, cost and drift figures, the config reader and writer. What the config writer writes is taken to be what the reader reads, and a config that cannot be read ends the flow before anything modelled here.
- The regular expression engine: each pattern is the scan it denotes.
- ClaudeWrapper.ClaudeBlockIsWrapper: asks the same of the path of `tj`, and so does ClaudeWrapper.OnboardingWritesUsableBlocks. The block is inserted as it is, which `ClaudeWrapper.InsertedAsItIs` makes a condition on the path.
- Universal newlines: files are read as texts whose line ends are "\n" already.
- Client.PostBatch: takes a number of replies that suffices, instead of waiting for them. `shutdown` does not await posts that a timer started, and rejections of such posts go nowhere; both are in flight, and then dropped, in the model.
- Otlp.RoundTrip: NaN and the infinities are one value, which JSON writes as null, and negative zero is zero; integers are those that are doubles, of any size, and the text of one of 10^21 and above is modelled but its digits are not read back. A value that cannot be encoded is `DeliveryRuns`' matter.
- Otlp.SpanEncodingFaithful: the attributes object is taken to be there, as its type says.
- Ingest.ArrivesAsSent: the fields that the server derives from attributes (agent, model, tokens), and the conversion of nanoseconds to a date, are left out.
- ShellEnv.ShellSeesTelemetry: the reader takes `export NAME=value` lines, the quotes around a value and nothing else of the shell; what a shell does when it runs the installed `claude` function is not modelled. The host and the secret hold no newline.
- CodexEnv.CodexSeesExport: asks for secrets without bracket and newline. The reader goes line by line, with tables, comments and assignments of plain strings, and nothing else of TOML.
- SpanBuilders.SpanBuilder.Build: start and duration are added as real numbers, without the rounding of doubles.
- ShellRc.OtelBlockIsPlain: asks for hosts and secrets without a newline and without the text of a wrapper marker; a newline would end the line that the block quotes them in.
- RcBlocks.ExactlyOne: asks that stripping leaves no OTEL marker line, as the next four do.
- RcPipeline.Converges: asks that stripping leaves no marker line, which `RcLines.RenderedFilesAreRepaired`, `RcLastLine.OpenFilesAreRepaired` and `RcRotation.ClosedLeavesNothing` decide from the lines of the file.
- RcPipeline.FixedPoint: the same.
- RcPipeline.UninstallUndoes: the same.
- RcPipeline.UninstallLeavesStripped: the same, and no wrapper marker in what is left; `RcPipeline.UninstallUndoes` is for any.
- RcRotation.RotationByLines: asks that a line ending with a start or legacy marker is the marker; what stands in front of one would join the line behind the block, and the condition is then that of `ShellRc.SecretAbsorbed`.
- RcRotation.ClosedLeavesNothing: the same.
- RcPipeline.RoundTrip: the PATH block is not part of these runs; `RcPath` has the runs that may append it.
- RcPath.ComesBackExactly: which runs miss `tj`, and whether uv helps, is given with each run; the directory holds neither a newline nor a wrapper marker.
- RcLines.StripRender: every line ends in a newline; `RcLastLine` has the files whose last line does not.
- RcLines.ForeignLinesSurvive: the same.
- RcLines.RenderedFilesAreRepaired: the same.
- RcWrapped.LinesComeBack: asks that no line of the user's own holds the wrapper's start marker; `RcPipeline.UninstallUndoes` says what is left otherwise.
- RcWrapped.LinesComeBackOpen: the same; a bare legacy marker at the end is left behind, as `RcLastLine.OpenFilesAreRepaired` says.
- RcWrapped.OneWrapper: the same.
- CodexPurge.OtelTomlIsBlock: asks for secrets without bracket and newline, which generated secrets are.
- CodexConverges.Converges: asks that the file names the tj server at most once, in comments too, since the code looks for the text and retires only the first; `CodexSettles.SettlesAlways` is for any number.
- CodexConverges.FixedPoint: the same.
- CodexConverges.NothingToRetire: the same.
- CodexLines.ForeignTablesSurvive: asks that managed headers stand only at the start of a line, and that the first line that is not blank is not indented, since stripping white space would turn an indented bracket into a table.
- CodexLines.StripKeeps: the same.
- CodexServer.TakenOutExactly: the same, but for the number of servers; `CodexServer.RetiredExactly` is for any text.
- CodexServer.ForeignServerStays: the same, and at most one server.
- CodexLegacy.PurgedExactly: the same.
- CodexUnforced.PresentStays: the same; whether the file parses to something with an otel table is given.
- CodexUnforced.AbsentIsAdded: the same.
- CodexIndented.UserTablesSurvive: the same; a line of a multi-line value that starts with a bracket counts as a header.
- CodexLines.CutAtStart: the header is at the start of a line.
- The secret alignment between the configs (`_sync_secret_to_codex`, `_sync_secret_to_claude_code`): not modelled.
- Settings.WireFrame: dicts are maps, so the order of keys, which no code depends on, is not modelled; lists are.
- Settings.WireCommutesWithCleanup: up to key order. Of `{"hooks": {"PostToolUse": [...]}, "x": 1}` with only the retired hook in the list, cleaning up first drops `hooks` and wiring adds it again behind `x`; wiring first keeps it in front.
- Settings.UnwireFrame: the same.
- Launchd.ParseUndoesPrint: plist escaping and the writing of the plist are outside; the argv is what was written.
- DemoConfig.ConfigFiles.EnsureDemoAgentConfig: works on parsed trees; reading and writing TOML is taken to be faithful, and two names of one file are two files.
- UiCache.RunsStayCoherent: the header tags injected into each response are left out. Requests are serial because both routes are coroutines without an await.
- Versions.IsOlder: components are integers of any size; JavaScript rounds them above 2^53.
- LauncherWalk.StartsItselfExactly: the walk is that of POSIX systems; Windows looks for a bare name in its own way.
- Launcher.Start: the messages and the note on stale installs after a successful start are left out.
- AnalysisSpan.RaisesExactly: Python's `int` of a text is a parameter that reads decimal numerals, and the answer is one of the three offered.
- Combination.Wizard.Combination: a span that cannot be read ends the flow where it is settled; the trace is that of the runs in which it can. Budgets and ceilings are asked for but their values are not kept; a transcript directory counts as a started backfill.
- Scoreboard.ScoreboardRows: figures are reals, and the text of a cell is not modelled.
