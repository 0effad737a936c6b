# Verified model of dsh-luban

dsh-luban manages long-lived coding-agent sessions: it keeps them alive across crashes and reboots, compacts their
context, gates tools behind approved plans, and serves a browser queue and a heads-up display. This project models the
parts of it in which a mistake is hardest to see, and proves what their code and documentation promise.

- `Quoting`: argument vectors printed for Windows and for POSIX shells, and the readers of those lines.
- `XmlEntities`, `XmlScan`, `TaskNames`, `TaskDocument`, `TaskXml`, `TaskSettings`, `TaskSections`, `TaskRoundTrip`: the
  scheduled task document, the pattern-matching reader that decides whether a document is exactly that task, and the round
  trip between them.
- `SseFilter`, `SessionIdRewrite`, `Addresses`, `Networks`: the gateway's incremental event filter, its JSON rewrite, the
  reading of addresses, and the trusted-network check.
- `Strategies`, `Digest`, `Compaction`, `CompactionProtocol`: planning, digesting, executing and recording a context
  compaction.
- `Checkpoints`: checkpointed execution with a crash possible at every point.
- `RateWindow`, `LoginLimiter`: sliding windows.
- `Plans`, `PlanRepository`, `PlanService`: the approval state machine and the documents that mirror it.
- `HudStream`, `HudAlerts`, `BrowserQueue`: queues and episodes as interleaved steps.
- `Text` and `Wrappers` hold the string operations and datatypes these share.

Code that changes things step by step is modelled by classes and methods, each proved equal to a function of the old
state; the lemmas then speak about those functions and about every run of them. Clocks, failures of foreign calls,
interleavings and the answers of the platform (`isIP`, case conversion, number parsing) are parameters.

## Where the code does less than it promises

Each of these is proved with its exact condition.

- `windowsCommand` prints a program that holds a quote, or that is quoted and ends in a backslash, in a way the
  program-name rules of Windows read differently (`Quoting.ProgramSurvives`, `Quoting.ProgramCanBeLost`).
- `rewriteSessionIdArrays` drops a property named `__proto__` from an object it changes (`SessionIdRewrite.RewriteIsDeepFilter`,
  `SessionIdRewrite.ProtoIsLost`).
- `PlanRepository.create` removes the document of a plan that was stored when the state update fails after publishing
  (`PlanRepository.CreateAgreement`, `PlanRepository.CreateCanLoseDocument`).
- `matchesWindowsTaskXml` does not recognize a task that was just written when one of its texts has white space at an
  end; nothing that builds a child task refuses such a command (`TaskRoundTrip.WrittenTaskMatchesItselfIff`,
  `TaskRoundTrip.ChildTaskIsRecognizedIff`, `TaskRoundTrip.ChildTaskCanBeLost`).
- `normalizeIp` cuts `::ffff:` off as text, so an IPv4-mapped address in hexadecimal is in no network at all, and one in
  dotted form only in IPv4 networks (`Networks.ComparesAddressesIff`, `Networks.HexMappedMatchesNothing`,
  `Networks.HexMappedExample`).
- `ipMatchesNetwork` takes an empty prefix length for zero, so `10.0.0.0/` holds every IPv4 address
  (`Networks.SlashChangesNothingIff`, `Networks.SlashExample`).
- `maybeCompact` forgets a replacement of the surface when the clock or the second snapshot throws: it gets no record, and
  the next compaction need not wait (`CompactionProtocol.EveryReplacementIsAppliedIff`, `CompactionProtocol.AllInTimeIff`).
- The plan service remembers nothing of a state that was published under a reported failure, and its guard goes by what it
  remembers (`PlanService.FreshIffNotLate`, `PlanService.LateCompletionLetsToolsRun`).
- The digest that asks to preserve decisions and constraints drops important lines when there are more than 80 of them and
  of the first lines, or when the listing up to the last of them is longer than 12,000 characters, as a single long line
  makes it (`Digest.ImportantAreListedIff`, `Digest.ManyLinesDropOne`, `Digest.LongLineDropsNext`).
- The browser queue publishes to its listeners unguarded. One that throws can leave a job pending with no drain, jobs
  queued that are in no list and block the queue for good, a job that is left running, and waiters without an answer
  (`BrowserQueue.QueueCorrect`, `BrowserQueue.StepKeepsOrderIff`, `BrowserQueue.EnqueueCanStrand`,
  `BrowserQueue.StopCanForget`, `BrowserQueue.ForgottenForGood`).
- The current plan of a session need not be the one updated last when the clock steps back (`PlanService.CurrentStaysLatestIff`,
  `PlanService.ClockBackLosesLatest`).

## Model

| member | source | states |
|---|---|---|
| `Quoting.WindowsArgument` | packages/dsh-luban-keepalive/src/session-id.ts:22-41 | the loop over the characters prints an argument exactly as the recursive printer does, and refuses NUL, carriage return and line feed |
| `Quoting.EscapedReadsBack` | packages/dsh-luban-keepalive/src/session-id.ts:25-40 | a quoted argument, read with 2n or 2n+1 backslashes before a quote, gives back its value with whatever backslashes were held back before it |
| `Quoting.PlainReadsBack` | packages/dsh-luban-keepalive/src/session-id.ts:22-25 | an argument printed without quotes reads back as itself, backslashes included |
| `Quoting.WindowsArgumentsRoundTrip` | packages/dsh-luban-keepalive/src/session-id.ts:43-45 | every argument vector without NUL, CR and LF is printed, and splitting the line by the Win32 argument rules gives back exactly the vector |
| `Quoting.WindowsArgumentsInjective` | packages/dsh-luban-keepalive/src/session-id.ts:43-45 | two vectors that print alike are the same vector |
| `Quoting.PrintedArgumentsAreTrimmed` | packages/dsh-luban-keepalive/src/session-id.ts:22-45 | a printed vector begins and ends with visible characters, so a reader that trims it loses nothing |
| `Quoting.WindowsCommandRoundTrip` | packages/dsh-luban-keepalive/src/session-id.ts:47-51 | a whole command line read by the argument rules gives back program and arguments |
| `Quoting.ProgramSurvives` | packages/dsh-luban-keepalive/src/session-id.ts:47-51 | read by the program-name rules, which know no escapes, the program comes back exactly when it holds no quote and does not have to be quoted with a backslash at its end |
| `Quoting.ProgramCanBeLost` | packages/dsh-luban-keepalive/src/session-id.ts:47-51 | two concrete programs, one with a blank and a backslash at its end and one with a quote, that are printed and read back as something else |
| `Quoting.PosixCommandRoundTrip` | packages/dsh-luban-keepalive/src/session-id.ts:17-19 | splitting a POSIX command line by quote and token rules of the shell gives back program and arguments, for all texts |
| `XmlEntities.XmlTextIsEncoding` | packages/dsh-luban-keepalive/src/windows-task.ts:109-116 | five replacements one after another escape every special character exactly once, and nothing else |
| `XmlEntities.DecodeUndoesEscape` | packages/dsh-luban-keepalive/src/windows-task.ts:109-125 | decoding an escaped text gives back the text, for every text |
| `XmlEntities.DecodeOfTrimmedEscape` | packages/dsh-luban-keepalive/src/windows-task.ts:174-187 | trimming an escaped text before decoding it yields the trimmed text |
| `XmlScan.ParseAttributes` | packages/dsh-luban-keepalive/src/windows-task.ts:133-147 | the offset loop reads a list of attributes until nothing is left, refuses repeated keys and leftovers, and agrees with the recursive reader |
| `XmlScan.HitsAppend` | packages/dsh-luban-keepalive/src/windows-task.ts:149-151 | matches of a tag pattern in a text with complete markup and in what follows it add up |
| `XmlScan.FindElementIs` | packages/dsh-luban-keepalive/src/windows-task.ts:153-161 | the leftmost match of the element pattern is the first place whose open tag has that name in front |
| `XmlScan.RemoveFirstIs` | packages/dsh-luban-keepalive/src/windows-task.ts:196 | `replace` with an empty text cuts an element out at its own place when its name occurs nowhere before |
| `TaskNames.NamesDiffer` | packages/dsh-luban-keepalive/src/windows-task.ts:149-156 | of all element names the reader asks for, ignoring case, none begins with another one except Principals with Principal and ExecutionTimeLimit with Exec |
| `TaskDocument.OpeningAtOpenTag` | packages/dsh-luban-keepalive/src/windows-task.ts:149-151 | the counting pattern of a name matches the printed open tags of that name and no others |
| `TaskDocument.AttributesAreRead` | packages/dsh-luban-keepalive/src/windows-task.ts:133-147 | every list of printed attributes with distinct names is read back as its map |
| `TaskDocument.SingleInRows` | packages/dsh-luban-keepalive/src/windows-task.ts:153-161 | in a printed block whose rows keep apart, the reader finds each row by its name, with its attributes and its whole content |
| `TaskDocument.TextInRows` | packages/dsh-luban-keepalive/src/windows-task.ts:174-187 | a printed text child is read with its text, without the white space at the ends |
| `TaskDocument.RemoveInRows` | packages/dsh-luban-keepalive/src/windows-task.ts:189-199 | cutting a row out of what is left of a block takes out that row and leaves all others |
| `TaskXml.ExactTextChildren` | packages/dsh-luban-keepalive/src/windows-task.ts:189-199 | the loop over the expected children, each read from the parent and cut out of the remainder, decides the specification |
| `TaskXml.ExactSettings` | packages/dsh-luban-keepalive/src/windows-task.ts:400-460 | the settings check with restart, idle, required and optional settings decides the specification |
| `TaskXml.TakeRequired` | packages/dsh-luban-keepalive/src/windows-task.ts:425-439 | the loop over the required settings leaves exactly the remainder of the specification, or fails when it does |
| `TaskXml.TakeOptional` | packages/dsh-luban-keepalive/src/windows-task.ts:441-458 | the loop over the optional settings skips missing ones and otherwise takes them out |
| `TaskSettings.ConsumeRows` | packages/dsh-luban-keepalive/src/windows-task.ts:189-199 | for every block whose leaves hold the expected texts, consuming them leaves the block without those rows |
| `TaskSettings.SettingsAreExact` | packages/dsh-luban-keepalive/src/windows-task.ts:400-460 | the settings that are written pass the exact settings check |
| `TaskSections.TriggerIsExpected` | packages/dsh-luban-keepalive/src/windows-task.ts:218-247 | a written task has the expected trigger exactly when it was written with that trigger |
| `TaskRoundTrip.RenderedTaskIsProjected` | packages/dsh-luban-keepalive/src/windows-task.ts:327-382 | for all definitions, the reader projects the written document to its trimmed texts, and to nothing when the trigger differs or the command is blank |
| `TaskRoundTrip.RenderedTaskMatchesIff` | packages/dsh-luban-keepalive/src/windows-task.ts:470-557 | for all pairs of definitions, the written one matches the asked one exactly when triggers agree, trimmed description and arguments are equal, trimmed user and command are equal up to case, and the command is not blank |
| `TaskRoundTrip.TrimmedTaskMatchesIff` | packages/dsh-luban-keepalive/src/windows-task.ts:547-557 | with trimmed texts and a command, matching is equality, up to case in user and command |
| `TaskRoundTrip.WrittenTaskMatchesItselfIff` | packages/dsh-luban-keepalive/src/windows-task.ts:547-557 | a task that was just written is recognized exactly when its texts are trimmed and it has a command |
| `TaskRoundTrip.ChildTaskIsRecognizedIff` | packages/dsh-luban-keepalive/src/windows-task.ts:302-325 | a child session task with printed arguments is recognized exactly when its command is trimmed, which its constructor does not check |
| `TaskRoundTrip.ChildTaskCanBeLost` | packages/dsh-luban-keepalive/src/windows-task.ts:302-325 | the concrete failing case: a child task with the command `node` and a space is accepted and written, and its own document does not match it |
| `TaskRoundTrip.ChildArgumentsSurvive` | packages/dsh-luban-keepalive/src/windows-task.ts:327-382 | the arguments read back from any written task with printed arguments split into the vector they were printed from |
| `SseFilter.DshSseFilter.Transform` | packages/dsh-luban-auth/src/sidecar.ts:1194-1204 | one chunk appends to the buffer and drains the complete blocks |
| `SseFilter.DshSseFilter.Flush` | packages/dsh-luban-auth/src/sidecar.ts:1206-1218 | the end of the stream passes on what is left, if anything |
| `SseFilter.DshSseFilter.DrainCompleteBlocks` | packages/dsh-luban-auth/src/sidecar.ts:1220-1229 | the drain loop ends and filters one block after another |
| `SseFilter.FindBoundaryIsLeftmost` | packages/dsh-luban-auth/src/sidecar.ts:1220-1228 | the search finds the leftmost double line end, and finds one whenever there is one |
| `SseFilter.FindBoundaryStable` | packages/dsh-luban-auth/src/sidecar.ts:1220-1229 | text that arrives later never changes a boundary that was already found |
| `SseFilter.CutInPieces` | packages/dsh-luban-auth/src/sidecar.ts:1220-1229 | cutting a text in two goes and at once gives the same blocks and the same rest |
| `SseFilter.CutIsCut` | packages/dsh-luban-auth/src/sidecar.ts:1220-1229 | blocks, boundaries and rest put together are the text, and no block holds a boundary |
| `SseFilter.DrainedIsCut` | packages/dsh-luban-auth/src/sidecar.ts:1220-1229 | the drain loop filters exactly the complete blocks of its buffer, in order, until one is refused |
| `SseFilter.RunIsWholeStream` | packages/dsh-luban-auth/src/sidecar.ts:1184-1230 | whatever the chunks, the output is what filtering the whole text block by block gives |
| `SseFilter.ChunkInvariance` | packages/dsh-luban-auth/src/sidecar.ts:1184-1230 | two ways of cutting the same stream give the same output and the same failure |
| `SessionIdRewrite.RewriteSessionIdArrays` | packages/dsh-luban-auth/src/sidecar.ts:1309-1339 | the loops over items and entries compute the recursive rewrite and its flag |
| `SessionIdRewrite.FilterItems` | packages/dsh-luban-auth/src/sidecar.ts:1319-1326 | the filtered array keeps exactly the accepted items, and is the given one exactly when all are accepted |
| `SessionIdRewrite.ChangedIffDifferent` | packages/dsh-luban-auth/src/sidecar.ts:1309-1339 | the flag is raised exactly when the returned value differs from the given one |
| `SessionIdRewrite.ChangedIffFiltered` | packages/dsh-luban-auth/src/sidecar.ts:1309-1339 | the flag is raised exactly when the plain deep filter has something to remove |
| `SessionIdRewrite.RewriteIsDeepFilter` | packages/dsh-luban-auth/src/sidecar.ts:1309-1339 | the rewrite is the plain deep filter exactly when no changed object has a property named `__proto__` |
| `SessionIdRewrite.ProtoIsLost` | packages/dsh-luban-auth/src/sidecar.ts:1313-1337 | a concrete value whose `__proto__` property the rewrite drops |
| `SessionIdRewrite.CleanIffUntouched` | packages/dsh-luban-auth/src/sidecar.ts:1309-1339 | a value holds no rejected id exactly when the deep filter leaves it alone |
| `SessionIdRewrite.RewriteIsClean` | packages/dsh-luban-auth/src/sidecar.ts:1309-1339 | no visited array of session ids holds a rejected id afterwards |
| `SessionIdRewrite.RewriteIsIdempotent` | packages/dsh-luban-auth/src/sidecar.ts:1309-1339 | a second rewrite changes nothing and says so |
| `Addresses.TextFormsAreRead` | packages/dsh-luban-auth/src/http-security.ts:386-407 | every RFC 4291 section 2.2 text form, full, compressed anywhere, with an IPv4 tail, in either case, is read as its 128-bit number |
| `Addresses.GroupsOfText` | packages/dsh-luban-auth/src/http-security.ts:396-406 | groups around a double colon are read with exactly the missing zeros between them |
| `Addresses.QuadIsDotted` | packages/dsh-luban-auth/src/http-security.ts:375-384 | a dotted quad of octets is read as its 32-bit number |
| `Addresses.TailReplaced` | packages/dsh-luban-auth/src/http-security.ts:388-395 | a dotted tail is replaced by its two hexadecimal groups and nothing else changes |
| `Addresses.Ipv6HasWidth` | packages/dsh-luban-auth/src/http-security.ts:386-407 | whatever text is read, its number fits in 128 bits |
| `Addresses.ShiftedEqualIffBitsAgree` | packages/dsh-luban-auth/src/http-security.ts:371-372 | the shifted numbers are equal exactly when the first bits agree one by one |
| `Networks.MatchesIffFirstBitsAgree` | packages/dsh-luban-auth/src/http-security.ts:358-373 | for every address and network text, the check holds exactly when both are of one version, the prefix length is one of that version, both are read, and the first bits agree |
| `Networks.LongerMatchImpliesShorter` | packages/dsh-luban-auth/src/http-security.ts:358-373 | a match at a longer prefix is a match at every shorter prefix of the same address |
| `Networks.FormIsSeen` | packages/dsh-luban-auth/src/http-security.ts:352-356 | what is left of any IPv6 text form after the prefix `::ffff:` is cut off as text: the whole form as its 128-bit number, a mapped dotted quad as its 32-bit number, and any other mapped form is no address |
| `Networks.TextFormsMatchIff` | packages/dsh-luban-auth/src/http-security.ts:352-407 | for all pairs of text forms, the check holds exactly when both are seen as addresses of one version, the prefix length is one of that version, and the first bits of their numbers agree |
| `Networks.ComparesAddressesIff` | packages/dsh-luban-auth/src/http-security.ts:352-373 | for all pairs of text forms, the check compares the first bits of the 128-bit addresses at every prefix length exactly when neither text begins with `::ffff:` |
| `Networks.HexMappedMatchesNothing` | packages/dsh-luban-auth/src/http-security.ts:352-363 | a mapped address in hexadecimal is in no network, and no address is in a network written so |
| `Networks.HexMappedExample` | packages/dsh-luban-auth/src/http-security.ts:352-363 | the concrete failing case: `::ffff:102:304` is read as an IPv6 address and is in no network, not even `::/0` |
| `Networks.ZeroPrefixTakesVersion` | packages/dsh-luban-auth/src/http-security.ts:358-373 | a network whose prefix text is converted to zero takes every address of its version, and no other |
| `Networks.SlashChangesNothingIff` | packages/dsh-luban-auth/src/http-security.ts:359-368 | a slash with nothing behind it changes what a network takes exactly when an address stands before it |
| `Networks.SlashExample` | packages/dsh-luban-auth/src/http-security.ts:366-368 | the concrete case: `10.0.0.0/` takes every IPv4 address |
| `Networks.PlatformRecognizes` | packages/dsh-luban-auth/src/http-security.ts:364-365 | some platform answers as the lemmas about text forms ask of `isIP` |
| `Strategies.ValidateSegments` | packages/dsh-luban-context/src/strategies.ts:18-37 | the loop accepts exactly the valid segment lists |
| `Strategies.PartitionRecent` | packages/dsh-luban-context/src/strategies.ts:40-58 | older and kept segments are the input in two pieces; the kept ones are the longest suffix whose total is within the budget, or the suffix from the last counting segment when that one alone exceeds it; bad segments and budgets are refused |
| `Strategies.FirstKeptIsUnique` | packages/dsh-luban-context/src/strategies.ts:40-58 | the promised position is unique, so older and kept segments are determined by the promise |
| `Strategies.FirstKeptFound` | packages/dsh-luban-context/src/strategies.ts:46-57 | the position at which the loop stops is the one the promise describes |
| `Strategies.BeforeTokens` | packages/dsh-luban-context/src/strategies.ts:60-66 | each segment the plan names counts once |
| `Strategies.BeforeTokensIsInputTotal` | packages/dsh-luban-context/src/strategies.ts:60-179 | for all three strategies the tokens before compaction are those of the whole input |
| `Compaction.SnapshotsMirror` | packages/dsh-luban-context/src/dsh-context.ts:48-66 | the snapshots of a surface name its nodes one by one, in order |
| `Compaction.ContiguousIffPrefix` | packages/dsh-luban-context/src/dsh-context.ts:144-177 | the contiguity check passes exactly when the touched nodes are a prefix of the surface |
| `Compaction.OneSelected` | packages/dsh-luban-context/src/dsh-context.ts:194-206 | a segment of the surface selects its own node and no other |
| `Compaction.Session.ReplacePrefix` | packages/dsh-luban-context/src/dsh-context.ts:165-175 | the replaced prefix is gone, one new node with the given text stands in its place, and the rest of the surface is as it was |
| `Compaction.Archive.Write` | packages/dsh-luban-context/src/archive.ts:383-425 | a write that succeeds has its document on file and its entry in the index, in place of an older one of the same name; one that fails leaves nothing, the file alone, or both |
| `Compaction.Archive.ReplayPath` | packages/dsh-luban-context/src/archive.ts:451-484 | a path of the index whose file still has the recorded digest gives back the document |
| `Compaction.OnFileReplays` | packages/dsh-luban-context/src/archive.ts:383-484 | every message that is on file after an archive loop can be replayed by its path, with its text |
| `Compaction.DshCompactionContext.Read` | packages/dsh-luban-context/src/dsh-context.ts:114-125 | a read returns the text of the selected nodes and marks them; a failed one marks some of them or none |
| `Compaction.DshCompactionContext.ArchiveSegment` | packages/dsh-luban-context/src/dsh-context.ts:127-130 | archiving marks the selected nodes and files the document, and a failure is a storage failure |
| `Compaction.DshCompactionContext.SummarizeSegments` | packages/dsh-luban-context/src/dsh-context.ts:132-142 | a digest that is returned is that of the texts of all segments and at most 12000 characters long, and every node of the segments is marked; a failed one marks some of them |
| `Digest.ImportantAreListedIff` | packages/dsh-luban-context/src/dsh-context.ts:76-142 | the digest lists every important line of the text whole exactly when the first twelve and the important ones are at most 80 different lines and the listing up to the last important line is at most 12000 characters long |
| `Digest.ManyLinesDropOne` | packages/dsh-luban-context/src/dsh-context.ts:76-87 | the first concrete failing case: of 81 lines that all say `must`, one is not in the digest |
| `Digest.LongLineDropsNext` | packages/dsh-luban-context/src/dsh-context.ts:132-142 | behind a first line of 12000 characters nothing is listed: the next line is chosen, is well within the 80 lines, and the digest ends before it |
| `Digest.DigestCanLoseNext` | packages/dsh-luban-context/src/dsh-context.ts:132-142 | the second concrete failing case: 12000 times `x`, and then a line that says `must not` |
| `Compaction.DshCompactionContext.Inject` | packages/dsh-luban-context/src/dsh-context.ts:144-177 | the injection replaces exactly the touched prefix by one message that holds the summary and the list of files, or fails and leaves the surface alone |
| `Compaction.ArchiveSegments` | packages/dsh-luban-context/src/strategies.ts:82-92 | the archive loop touches and files the planned segments, all of them with their entries, or fails with a part of them touched |
| `Compaction.Execute` | packages/dsh-luban-context/src/strategies.ts:115-193 | one execution of any strategy leaves the surface untouched or with exactly the planned prefix replaced by the text of that strategy, and succeeds exactly in the second case, with its token counts and with its archive on file |
| `Compaction.ExecuteTwice` | packages/dsh-luban-context/src/engine.ts:205-222 | a second execution after a failure is as safe as the first one |
| `Compaction.ExecuteWithFallback` | packages/dsh-luban-context/src/engine.ts:205-239 | so is the archive-only fallback with its own plan, and the contiguity check never fires |
| `Compaction.Compact` | packages/dsh-luban-context/src/engine.ts:200-239 | one compaction, whatever fails, replaces the surface at most once, by exactly the planned prefix and the text of the strategy that succeeded, and keeps the suffix |
| `CompactionProtocol.OwnedSessionKeyInjective` | packages/dsh-luban-context/src/engine.ts:77-80 | different owners never share a session key |
| `CompactionProtocol.AuditFile.RecordAudit` | packages/dsh-luban-context/src/archive.ts:486-510 | recording appends a new audit and ignores one that is already there |
| `CompactionProtocol.DefaultCompactionEngine.BeginCall` | packages/dsh-luban-context/src/engine.ts:160-183 | a call finishes what is pending before it counts a round and before it may start a compaction |
| `CompactionProtocol.DefaultCompactionEngine.EndExecution` | packages/dsh-luban-context/src/engine.ts:264-266 | an execution that ends without a result frees the session and changes nothing else |
| `CompactionProtocol.DefaultCompactionEngine.ApplyExecution` | packages/dsh-luban-context/src/engine.ts:240-263 | once its record could be built, an applied compaction is remembered with it and the rounds start again |
| `CompactionProtocol.DefaultCompactionEngine.LoseExecution` | packages/dsh-luban-context/src/engine.ts:240-266 | when the clock or the second look at the surface throws after the replacement, the session is freed, nothing is pending and the rounds go on |
| `CompactionProtocol.AppliedIsStep` | packages/dsh-luban-context/src/engine.ts:200-263 | a compaction that was applied is the step that applies one, with its count of nodes and its record, or, when the clock or the second look at the surface throws, the step that loses it; nodes, sequence numbers and replacements of surface and protocol agree again after it |
| `CompactionProtocol.DefaultCompactionEngine.ExecuteStrategy` | packages/dsh-luban-context/src/engine.ts:200-266 | the compaction of the live surface followed by its ending is one step of the protocol, after which both agree on the surface |
| `CompactionProtocol.DefaultCompactionEngine.AuditReturned` | packages/dsh-luban-context/src/engine.ts:333-363 | the audit step moves on only when the record was reported as kept |
| `CompactionProtocol.DefaultCompactionEngine.EmitReturned` | packages/dsh-luban-context/src/engine.ts:364-394 | the announcement clears the compaction, and a failed one leaves it pending |
| `CompactionProtocol.AddOnceLogs` | packages/dsh-luban-context/src/archive.ts:486-510 | recording again what a failed attempt had already published adds nothing |
| `CompactionProtocol.StepKeepsOrder` | packages/dsh-luban-context/src/engine.ts:333-394 | every step keeps applied before audited before announced, and no other compaction in between |
| `CompactionProtocol.StepKeepsSpacing` | packages/dsh-luban-context/src/engine.ts:176-183 | every step keeps compactions the minimum number of counted rounds apart |
| `CompactionProtocol.ProtocolHolds` | packages/dsh-luban-context/src/engine.ts:160-394 | over every run with failures anywhere, records are in the file once each and in order, kept compactions keep their distance, and a kept replacement holds off the next one |
| `CompactionProtocol.EveryReplacementIsAppliedIff` | packages/dsh-luban-context/src/engine.ts:200-266 | over every run, each replacement of the surface is an applied compaction, with a record on file or pending, exactly when no replacement was lost before its record was built |
| `CompactionProtocol.KeptAreInTime` | packages/dsh-luban-context/src/engine.ts:176-266 | over every run that loses none, all replacements are the minimum number of counted rounds apart |
| `CompactionProtocol.AllInTimeIff` | packages/dsh-luban-context/src/engine.ts:176-266 | with lost ones, that holds in every run exactly when the minimum is at most one; otherwise a run is given that replaces twice one round apart |
| `Checkpoints.RunStep` | packages/dsh-luban-keepalive/src/checkpoint-runner.ts:116-139 | one turn of the loop, with a crash possible before, between and after run and save |
| `Checkpoints.CheckpointStore.Save` | packages/dsh-luban-keepalive/src/ledger.ts:240-266 | a save is refused for an unknown session, a task or account that does not own it, and a record that does not fit together, each with its own error; otherwise it keeps the checkpoint under the owning account |
| `Checkpoints.RunCheckpointedTask` | packages/dsh-luban-keepalive/src/checkpoint-runner.ts:104-141 | the loop computes one attempt from whatever was saved |
| `Text.Dedupe` | packages/dsh-luban-keepalive/src/checkpoint-runner.ts:67-92 | merged artifacts hold each path once and no other paths |
| `Text.DedupeKeepsOrder` | packages/dsh-luban-keepalive/src/checkpoint-runner.ts:67-92 | they stand in the order in which they first occurred |
| `Checkpoints.AttemptStaysOnTrack` | packages/dsh-luban-keepalive/src/checkpoint-runner.ts:104-141 | an attempt never reruns a step whose successor is saved, and completes only with all steps done |
| `Checkpoints.StepsRunInOrder` | packages/dsh-luban-keepalive/src/checkpoint-runner.ts:104-141 | over any crashes the steps run in index order, with repetitions of the unsaved one only |
| `Checkpoints.ResumeEqualsUninterrupted` | packages/dsh-luban-keepalive/src/checkpoint-runner.ts:104-141 | after any interrupted attempts, one more attempt ends as a single uninterrupted run does, in checkpoint, artifacts or error |
| `RateWindow.SlidingRateWindow.Record` | packages/dsh-luban-hud/src/rate-window.ts:40-48 | a sample is added to the whole history, and what is kept is what that history leaves after pruning |
| `RateWindow.SlidingRateWindow.Snapshot` | packages/dsh-luban-hud/src/rate-window.ts:50-79 | the returned rates are those of the whole history at the monotone cursor |
| `RateWindow.SlidingRateWindow.Prune` | packages/dsh-luban-hud/src/rate-window.ts:81-88 | the splice leaves the pruned samples |
| `RateWindow.SlidingRateWindow.Advance` | packages/dsh-luban-hud/src/rate-window.ts:90-93 | the cursor never goes back |
| `RateWindow.WithinPruned` | packages/dsh-luban-hud/src/rate-window.ts:81-88 | nothing a window can still see is ever pruned, back-dated samples included |
| `RateWindow.PrunedAgain` | packages/dsh-luban-hud/src/rate-window.ts:81-88 | pruning early and again is pruning once |
| `RateWindow.RatesOfPruned` | packages/dsh-luban-hud/src/rate-window.ts:50-79 | the totals over the kept samples give the rates of the whole history, unknown exactly when an unknown sample is in the window |
| `RateWindow.SumSamples` | packages/dsh-luban-hud/src/rate-window.ts:53-71 | one pass over the samples computes both windows |
| `LoginLimiter.AuthManager.ConsumeLoginAttempt` | packages/dsh-luban-auth/src/auth-manager.ts:438-452 | an attempt changes its own source only, as the specification says |
| `LoginLimiter.AttemptKeepsInv` | packages/dsh-luban-auth/src/auth-manager.ts:438-452 | what is remembered is the end of all admissions, and the forgotten ones are too old to count |
| `LoginLimiter.NoWindowHoldsMore` | packages/dsh-luban-auth/src/auth-manager.ts:438-452 | for a nondecreasing clock no window of 60 seconds holds more than the limit |
| `LoginLimiter.AdmittedIffRoom` | packages/dsh-luban-auth/src/auth-manager.ts:438-452 | an attempt is admitted exactly when fewer than the limit were admitted in the window before it |
| `LoginLimiter.RetryAfterIsExact` | packages/dsh-luban-auth/src/auth-manager.ts:438-452 | who waits as told is admitted, who comes a second sooner is refused |
| `Plans.ValidSectionsMeaning` | packages/dsh-luban-plan/src/template.ts:11-24 | exactly the sections with a visible character in each part are accepted |
| `Plans.AppliedKeepsHistory` | packages/dsh-luban-plan/src/service.ts:79-272 | every decision, transition and revision keeps the approval history and adds one to the version |
| `Plans.HistoryOverRuns` | packages/dsh-luban-plan/src/service.ts:79-272 | over every run a plan has at most one approval, as its last decision, and the status that goes with it |
| `Plans.NewPlanHistory` | packages/dsh-luban-plan/src/service.ts:152-167 | a new plan has version one plus the number of its updates |
| `Plans.GuardNeedsApproval` | packages/dsh-luban-plan/src/guard.ts:35-46 | a protected tool that is not exempt runs exactly under a plan that ends in its only approval and is not completed |
| `PlanRepository.PlanRepository.Create` | packages/dsh-luban-plan/src/repository.ts:300-352 | the document is written, then the state; the result and both stores are those of the specification under every failure |
| `PlanRepository.PlanRepository.Update` | packages/dsh-luban-plan/src/repository.ts:354-434 | the same for an update with its reconciliation branch |
| `PlanRepository.CreateAgreement` | packages/dsh-luban-plan/src/repository.ts:339-351 | a creation keeps documents and state in agreement exactly unless the state was published, an error was reported all the same, and the document was removed |
| `PlanRepository.CreateCanLoseDocument` | packages/dsh-luban-plan/src/repository.ts:339-351 | the concrete failing case: a stored plan without a document |
| `PlanRepository.UpdateAgreement` | packages/dsh-luban-plan/src/repository.ts:354-434 | an update breaks the agreement exactly when the state was lost after the document was written, the document could not be rendered back and the two versions render differently, and then it reports that it is not reconciled |
| `PlanRepository.AgreementOverRuns` | packages/dsh-luban-plan/src/repository.ts:300-434 | over every run without such a failure each stored plan has its rendered document |
| `PlanRepository.RunsFromEmpty` | packages/dsh-luban-plan/src/repository.ts:300-434 | from an empty store, whatever fails, histories hold, and documents agree unless one of the named failures happened |
| `PlanService.FilePlanService.Create` | packages/dsh-luban-plan/src/service.ts:152-167 | sections, session owner and linked task are checked in this order, each with its own error; then the plan is stored, and remembered exactly when the repository returns it |
| `PlanService.FilePlanService.Remember` | packages/dsh-luban-plan/src/service.ts:343-352 | the maps of plans and sessions become those of the specification |
| `PlanService.FilePlanService.Change` | packages/dsh-luban-plan/src/service.ts:169-272 | a change is checked against the remembered owner and the session, stored, and remembered exactly when the repository returns it |
| `PlanService.FilePlanService.GuardTool` | packages/dsh-luban-plan/src/guard.ts:35-46 | the guard asks the plan that is current for the session |
| `PlanService.RememberedIsLatestIff` | packages/dsh-luban-plan/src/service.ts:343-352 | when the current plan of every session is the one updated last, remembering another version keeps that so exactly unless the version is of the current plan and has a time before that of another plan of the session |
| `PlanService.CurrentStaysLatestIff` | packages/dsh-luban-plan/src/service.ts:152-352 | over every run the current plan of a session stays the one updated last exactly when no request steps back so; with a clock that never reads less than before, none does |
| `PlanService.ClockBackLosesLatest` | packages/dsh-luban-plan/src/service.ts:343-352 | the concrete failing case: the newer of two plans is changed while the clock reads less than when the older one was made |
| `PlanService.ServedIsConsistent` | packages/dsh-luban-plan/src/service.ts:152-352 | every request keeps memory and store consistent, whatever the clock says and whatever fails |
| `PlanService.ConsistentLater` | packages/dsh-luban-plan/src/service.ts:343-352 | storing new versions never makes what is remembered inconsistent |
| `PlanService.UpdateResult` | packages/dsh-luban-plan/src/service.ts:169-272 | a successful update returns exactly what is stored, as a later version of the same plan |
| `PlanService.FreshIffNotLate` | packages/dsh-luban-plan/src/service.ts:152-352 | over every run, whatever fails, a stored plan is remembered exactly as it is stored unless its state was published under a reported failure since it was last remembered |
| `PlanService.LateCompletionLetsToolsRun` | packages/dsh-luban-plan/src/service.ts:220-244 | the failing case: a completion that is published under a reported failure leaves the plan completed on disk while the guard goes on letting protected tools run |
| `HudStream.HudEventStream.PublishEnvelope` | packages/dsh-luban-hud/src/http-api.ts:140-153 | publishing numbers the frame, shifts the buffer and feeds every connection of that account only |
| `HudStream.HudEventStream.ConnectClient` | packages/dsh-luban-hud/src/http-api.ts:86-138 | a new connection is replayed what it is owed, until a write closes it |
| `HudStream.HudEventStream.Dispose` | packages/dsh-luban-hud/src/http-api.ts:155-166 | disposing closes every connection, forgets every account and happens once |
| `HudStream.PublishedKeepsBuffer` | packages/dsh-luban-hud/src/http-api.ts:140-153 | the buffer is the last min(sequence, 256) frames with consecutive ids |
| `HudStream.PendingIsOwed` | packages/dsh-luban-hud/src/http-api.ts:93-100 | a client is owed a baseline, or exactly the frames after the id it asked for |
| `HudStream.StepKeepsInv` | packages/dsh-luban-hud/src/http-api.ts:86-166 | every publication, connection and disconnection keeps all connections without gaps |
| `HudStream.GapFreeReplay` | packages/dsh-luban-hud/src/http-api.ts:86-153 | a client that resumes from its last id receives, over all its connections, only baselines and successors |
| `HudAlerts.TaskboardHudAlertSink.ObserveLevel` | packages/dsh-luban-hud/src/alerts.ts:33-51 | an observation opens, continues or ends the episode of the account |
| `HudAlerts.TaskboardHudAlertSink.StartOperation` | packages/dsh-luban-hud/src/alerts.ts:52-58 | a chained operation starts one at a time and queries only for an unreported current episode |
| `HudAlerts.TaskboardHudAlertSink.ResumeAfterQuery` | packages/dsh-luban-hud/src/alerts.ts:52-72 | an operation whose episode has ended stops at its currency check |
| `HudAlerts.TaskboardHudAlertSink.ResumeAfterCreate` | packages/dsh-luban-hud/src/alerts.ts:60-73 | a created card is reported for its episode while that is current |
| `HudAlerts.TaskboardHudAlertSink.DisposeAll` | packages/dsh-luban-hud/src/alerts.ts:78-84 | disposing ends every episode |
| `HudAlerts.OneCardPerEpisode` | packages/dsh-luban-hud/src/alerts.ts:33-91 | over every interleaving at most one card is created per continuous critical episode |
| `HudAlerts.EpisodeIsContinuous` | packages/dsh-luban-hud/src/alerts.ts:43-51 | an episode number stays current exactly as long as every observation is critical and nothing is disposed |
| `HudAlerts.EndedCreatesNothing` | packages/dsh-luban-hud/src/alerts.ts:86-91 | operations of an ended episode create nothing once their check runs |
| `BrowserQueue.BrowserService.EnqueueJob` | packages/dsh-luban-browser/src/browser-service.ts:103-136 | a job is refused when closed or full, otherwise appended and a drain scheduled; when a listener throws, appended and no drain scheduled |
| `BrowserQueue.BrowserService.CancelJob` | packages/dsh-luban-browser/src/browser-service.ts:138-151 | cancelling removes a queued job and answers its waiters, or asks the running one to stop; when a listener throws, the waiters are left |
| `BrowserQueue.BrowserService.WaitFor` | packages/dsh-luban-browser/src/browser-service.ts:167-176 | waiting for a finished job answers at once, otherwise registers a waiter |
| `BrowserQueue.BrowserService.StopRequested` | packages/dsh-luban-browser/src/browser-service.ts:91-97 | stopping cancels every pending job and asks the running one to stop; when a listener throws at one of them, the jobs behind it stay queued in no list, and no job is asked to stop |
| `BrowserQueue.BrowserService.CloseRequested` | packages/dsh-luban-browser/src/browser-service.ts:195-204 | closing does the same once and lets no job in afterwards |
| `BrowserQueue.BrowserService.DirectoriesPrepared` | packages/dsh-luban-browser/src/browser-service.ts:214-225 | a drain that cannot prepare its directories fails every pending job, up to the one at which a listener throws |
| `BrowserQueue.BrowserService.DrainLoop` | packages/dsh-luban-browser/src/browser-service.ts:214-232 | the drain takes the oldest pending job; when a listener throws at its start, it stays running and the drain ends |
| `BrowserQueue.BrowserService.RunEnded` | packages/dsh-luban-browser/src/browser-service.ts:234-303 | the end of a run settles its job and answers its waiters, with every place at which a listener may throw |
| `BrowserQueue.BrowserService.BrowserHasStopped` | packages/dsh-luban-browser/src/browser-service.ts:286-303 | a browser that fails to stop turns the status into a failure; then the waiters are answered |
| `BrowserQueue.BrowserService.DrainSettled` | packages/dsh-luban-browser/src/browser-service.ts:206-212 | the end of a drain schedules the next one while jobs are pending and the service is open |
| `BrowserQueue.StepDamages` | packages/dsh-luban-browser/src/browser-service.ts:91-303 | every step, whatever listeners throw, keeps the pending list made of queued jobs in enqueue order with at most one job inside the drain, and loses of the rest of the order exactly the named parts |
| `BrowserQueue.StepKeepsOrderIff` | packages/dsh-luban-browser/src/browser-service.ts:91-303 | a step keeps the whole order exactly when no exception of a listener damages a part of it |
| `BrowserQueue.StepKeepsTally` | packages/dsh-luban-browser/src/browser-service.ts:103-303 | every step, whatever listeners throw, keeps the bound on queued plus running jobs and answers no waiter twice |
| `BrowserQueue.QueueCorrect` | packages/dsh-luban-browser/src/browser-service.ts:91-443 | over every run, whatever listeners throw, soundness and tally hold; and pending jobs have a drain, every queued job is pending, at most one job runs and waiters wait only for jobs that are to end, in every state of the run, exactly when no exception of a listener damages one of these |
| `BrowserQueue.QuietRunDamagesNothing` | packages/dsh-luban-browser/src/browser-service.ts:91-443 | a run in which no listener throws is such a run |
| `BrowserQueue.EnqueueCanStrand` | packages/dsh-luban-browser/src/browser-service.ts:103-136 | the first failing case: one job is added while a listener throws, and it is pending with no drain |
| `BrowserQueue.StopCanForget` | packages/dsh-luban-browser/src/browser-service.ts:91-97 | the second failing case: two jobs, a stop at whose first publication a listener throws, and the second job is queued in no list and counts against the limit |
| `BrowserQueue.ForgottenForGood` | packages/dsh-luban-browser/src/browser-service.ts:91-303 | a forgotten job stays queued and counts against the limit over every run that does not cancel it |
| `BrowserQueue.DrainAdvances` | packages/dsh-luban-browser/src/browser-service.ts:206-303 | whatever the drain waits for, and however it turns out, brings it forward |
| `BrowserQueue.RunCosts` | packages/dsh-luban-browser/src/browser-service.ts:91-303 | over every interleaving, the drain takes at most six steps for each new job besides those it still had to take |
| `BrowserQueue.NothingStranded` | packages/dsh-luban-browser/src/browser-service.ts:206-303 | from every sound state in which pending jobs have a drain, left alone, whatever answers the drain gets and whatever listeners throw, it goes idle within a bound with nothing pending; and with every job ended and every waiter answered when nothing was or is damaged |

## Left out

- HTTP, WebSocket and TLS proxying, headers, cookies and CSRF checks: input and output, or library behaviour.
- Password hashing, signatures and random bytes: no property here rests on them.
- Path resolution, symbolic-link checks and file identity in the repositories and archives: foreign calls. A store
  update is one step that succeeds, fails before publishing, or fails after it.
- The file lock of the stores: updates are taken to be serialized, and reconciliation to run without another writer.
- Configuration parsers, codecs and user interface: field-by-field checks that would only add easy members.
- UTF-8 decoding and lone surrogates: texts are sequences of characters that are already decoded.
- SseFilter.RunIsWholeStream: the callback that filters a block is a function of the block and of the blocks before it; its own effects are not modelled.
- Networks.MatchesIffFirstBitsAgree: `isIP` and the conversion of a prefix to a number are parameters. Of `isIP` it is used that its version 4 texts are exactly the dotted quads, that it takes all text forms of RFC 4291 section 2.2 for version 6, and that it takes no text without a zone for version 6 that `ipv6ToBigInt` cannot read; of the conversion, where it matters, the values of the decimal texts up to 128 and of the empty text. Lower case is ASCII lower case.
- Compaction.Compact: archive file names are taken to differ by segment, and appending to the surface is one step, and no message arrives while a strategy executes. Which lines are important is a parameter, and so are names and digests of files; the time in an index entry is not modelled.
- CompactionProtocol.ProtocolHolds: a restart of the process, which forgets what is pending, is not modelled.
- Checkpoints.CheckpointStore.Save: whether the parts of the session's record fit together is one flag of the record.
- Checkpoints.ResumeEqualsUninterrupted: the time of a save and the account label of the returned checkpoint are not compared.
- RateWindow.SlidingRateWindow.Snapshot: numbers are reals, so rounding of floating point is not modelled.
- PlanService.FilePlanService.Change: feedback to subscribers and moving the linked task on are not modelled, nor is reading the state at start-up; who owns a session or a task is a parameter of each request.
- HudStream.GapFreeReplay: clients are values rather than sockets; heartbeats and the parsing of the resume header are not modelled.
- BrowserQueue.QueueCorrect: a run ends in any final status; listeners may throw but do not call back into the service; the rejected promise of a drain that ends with an exception is not followed further, and tasks and profiles are not resolved.
- TaskRoundTrip.RenderedTaskMatchesIff: case conversion is a parameter of which only its values on five ASCII texts are used.
- TaskRoundTrip.ChildTaskIsRecognizedIff: the user identifier and the task name are parameters; their own patterns are not modelled.
- TaskXml.ExactSettings: the loops over required and optional settings are methods of their own.
