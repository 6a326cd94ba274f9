# The ticket graph, its event stream and its text kernels, verified

This Dafny project models three connected parts of Syndicate and proves what
they promise.

**The ticket graph** (`syndicate/nodes.py`). Eight nodes pass one state along:
a model proposes edits, fast checks and a validator judge them, and a git node
commits. One strike counter is shared by failed attempts, failed validations
and commits that were not verified. The nodes that talk to the sandbox are
methods with the source's loops (`Nodes`, `AgenticLoop`); each is proved equal
to a function of the state and of what came back, and `NodeReports` says word
for word what each of them writes and decides. `Graph` turns those functions
and the edges of `build_graph` into a transition system whose labels are
everything the sandbox and the model did. They may do anything: exit codes,
outputs and responses are arbitrary, and `git add` and `git commit` may lie.
Only `git rev-parse HEAD` is trusted, to report the HEAD of that moment.
An attempt is recorded as what was observed of it: what the model was shown
and replied, and what the fast checks came back with. `RunTheorems` holds the
results about all runs, `Recording` those about the record that a sandbox client
keeps of its commands (the validations, and the commit of a DONE ticket), and
`GraphRun` shows that the loop over the real node methods is such a run, that
its labels are what the model and the sandbox really did, and that it ends.
`RunWitnesses` builds runs that reach the bounds
and each kind of ending, so the results about all runs are not empty and the
bound on their length is exact.

**The run and its viewers** (`server/registry.py`, `server/runner.py`,
`server/app.py`, `server/static/app.js`). One producer appends numbered
envelopes to a bounded backlog; any number of viewers scan it from their own
cursor and share one wake-up event, which each of them clears. `Runner` is the
producer, `Stream` is the protocol as steps between suspension points (emit,
scan, yield, resume, clear, wait, wake, heartbeat, deliver, drop, reconnect),
with the two ends as classes beside it; `StreamTheorems` speaks of every
interleaving of those steps, and `StreamProgress` shows that viewers finish.
`StrikeEvents`, `EscalationEvents` and `RunnerTheorems` say what the envelopes of
a graph run contain, `Lifecycle` that runs never overlap, and `EndToEnd` joins graph and
stream: what a browser shows is a prefix of the run, and in the end all of it.

**The text kernels**: single-occurrence replacement (`StrReplace`), shell
quoting (`ShellWords`), the tail of a diagnosis over UTF-8 (`Utf8`, `Diagnosis`,
`DiagnosisLines`), and the redaction of secrets: a backtracking engine (`Regex`),
which of several matches it reports (`RegexChoice`), the five patterns
(`Redaction`), and what they match, character by character, and take out
(`SecretMatches`). The last three kernels follow section 2.2 of the POSIX.1-2017
Shell Command Language; section 3 of RFC 3629 with section 3.9 of the Unicode
Standard; and Python's `re`. `ReprText` reads back what `repr` puts into a log line.

The limits (strikes, model turns, escalations, backlog length) are parameters.
The results need at least one strike; the default numbers appear only in
corollaries.

## Laws that turned out to need a condition

- An edit is not always undone by swapping its two strings. `StrReplace.SwapCanFail`
  gives an input; `StrReplace.SwapUndoesExactlyWhenAlone` gives the exact condition.
- Attempt events are not always one per strike, even when no summary says
  "fast_check": the summary is logged through `repr`, and an escaped control
  character can complete the word (`StrikeEvents.EscapeSpellsFastCheck`,
  `RunWitnesses.AStrikeIsReportedTwice`). `StrikeEvents.OneEventAStrikeWhenQuiet`
  has the exact condition, on the summary as it is logged.
- A run is halted exactly when it has escalated and the count is then above
  the cap. The shorter statement, "when the count is above the cap", holds of a
  run if and only if it escalated or its count did not start above the cap
  (`RunTheorems.NoSilentSuccess`); `RunWitnesses.DoneIsReached` is a run of
  which it does not hold.
- The repository's README has every exhausted ticket escalate
  (README.md:27). A ticket can fail in every attempt and still pass its
  validation, which runs all the same. If it declares no files it then ends
  ESCALATED without a visit to `escalate`, and the count does not move
  (`RunWitnesses.EscalatedWithoutEscalate`); if it declares files and they are
  committed it ends DONE (`RunWitnesses.ExhaustedYetDone`).
  `RunTheorems.EscalatesExactlyWhen` has the exact condition: the last
  validation failed, or there are files and the ticket is not DONE.
- The stream of a finished run does not always return. A connection that is
  kept returns if and only if it was opened with a number before the end
  (`StreamProgress.StreamsReturnExactlyInTime`): within 3N + 4 steps if it was
  (`StreamProgress.StreamsReturn`, and `StreamProgress.StreamBoundIsReached` for
  one that needs them all), and never if it was not. A browser whose stream has
  returned reconnects with the last number, and that stream never returns
  (`StreamProgress.BrowsersComeBackTooLate`, `StreamProgress.LateStreamsNeverEnd`).
- Redaction passes on the strings of a container that is neither a dict nor a
  list nor a dataclass (a tuple, a set, a frozenset, any other object), and the
  value of an enum member that is not a string, as they are
  (`Redaction.ContainersAndEnumsPassBy`). `Redaction.RedactedValueHasNoSecret` has
  the exact condition. The two enums of the repository are strings too, and are
  redacted as such.

## Model

| member | source | states |
|---|---|---|
| StrReplace.CountIsMaximal | syndicate/runtime/base.py:24 | the non-overlapping greedy count is the largest number of disjoint occurrences |
| StrReplace.SucceedsExactlyOnOneMatch | syndicate/runtime/base.py:23-29 | an edit succeeds if and only if there is one place for it: exactly one greedy match, or an empty pattern in an empty file |
| StrReplace.ErrorTellsTheCount | syndicate/runtime/base.py:23-28 | the number in the error is that of disjoint matches, or of the boundaries for an empty pattern, and never one |
| StrReplace.RewritesTheOnlyMatch | syndicate/runtime/base.py:23-29 | a successful edit rewrites that place and keeps the text on both sides |
| StrReplace.SwapUndoesExactlyWhenAlone | syndicate/runtime/base.py:23-29 | swapping the strings restores the file if and only if the inserted text is the only greedy match of itself in the result |
| StrReplace.SwapCanFail | syndicate/runtime/base.py:23-29 | an edit that swapping does not undo |
| ShellWords.ReadQuoted | syndicate/nodes.py:550-559 | a shell reads a quoted NUL-free string, wherever it starts a word, as that string |
| ShellWords.StagingRoundTrip | syndicate/nodes.py:550-551 | the words of the staging command are git, add, -- and then the declared files, for any NUL-free paths |
| ShellWords.CommitRoundTrip | syndicate/nodes.py:555-559 | the commit command carries any NUL-free message as one argument |
| Utf8.DecodeInvertsEncode | syndicate/nodes.py:441-443 | decoding with replacement inverts encoding |
| Utf8.TailOfEncoding | syndicate/nodes.py:441-443 | the last n bytes of an encoding are at most three stray continuation bytes and then the encoding of a suffix |
| Utf8.DecodeStrays | syndicate/nodes.py:441-443 | each stray continuation byte in front decodes to one U+FFFD and the rest decodes whole |
| Utf8.DecodeBrokenOff | syndicate/nodes.py:443 | an encoding that breaks off decodes to one U+FFFD, however many of its bytes are there |
| Diagnosis.SplitLinesRejoins | syndicate/nodes.py:439-440 | on text whose only breaks are newlines, splitting and joining loses a final newline and nothing else |
| Diagnosis.TruncateKeepsTheTail | syndicate/nodes.py:438-444 | a diagnosis is the last 60 lines whole, or at most three U+FFFD and a suffix of them at a character boundary that fills the byte budget |
| DiagnosisLines.LinesAreExact | syndicate/nodes.py:439 | the lines of a text are the one way to cut it at the eleven line breaks, in which a carriage return and a newline count as one, and only the last line can lack its break |
| DiagnosisLines.LastLinesAreKept | syndicate/nodes.py:438-444 | for any output: its last 60 lines, all of them if there are no more, joined by newlines, whole when they fit 4096 bytes, and otherwise at most three U+FFFD and the suffix that fills the 4096 |
| DiagnosisLines.TailOfTheOutput | syndicate/nodes.py:438-444 | on output whose only breaks are newlines: what stands after the U+FFFDs is a suffix of the output, up to its final newline; below the byte budget it is all of it up to 60 lines, and otherwise exactly the last 60, from just after a newline |
| Diagnosis.TruncateIsBounded | syndicate/nodes.py:438-444 | a diagnosis has at most 59 newlines and at most 4096 + 6 bytes |
| Regex.EndsAreExact | server/events.py:47-57 | the backtracking search finds a match between two positions if and only if the pattern's language contains that slice |
| Regex.SubSplicesMatches | server/events.py:62-65 | a substitution replaces matches that are apart and in order, each the one that the engine reports where it starts; no match starts in the text it leaves, and all other text is kept |
| RegexChoice.EndsMove | server/events.py:62-65 | what stands before a place has no say in what matches there, nor in the order in which it is tried |
| RegexChoice.ManyThen | server/events.py:49-53 | a repetition before something that cannot start with one of its characters is taken whole or not at all |
| RegexChoice.LazyThen | server/events.py:54-56 | a lazy repetition tries what follows it at once, and only then after one more character |
| SecretMatches.AnthropicKeySays | server/events.py:48 | the first pattern matches sk-ant- and ten or more letters, digits, _ and - |
| SecretMatches.AssignmentSays | server/events.py:49-51 | the second matches a key word in any case, blanks, : or =, blanks, a quote or none, a token of twelve or more, a quote or none |
| SecretMatches.BearerSays | server/events.py:52 | the third matches bearer in any case, at least one blank, and such a token |
| SecretMatches.AwsKeySays | server/events.py:53 | the fourth matches AKIA and sixteen upper-case letters and digits |
| SecretMatches.PemSays | server/events.py:54-56 | the fifth matches a header and a footer of a private key and anything between |
| SecretMatches.SecretsGoWhole | server/events.py:48-65 | for the first four patterns: leftmost matches are replaced, from where each starts no longer one matches, and all other text is kept |
| SecretMatches.BlocksGoOneByOne | server/events.py:54-65 | for key blocks: the same, and from where each starts no shorter one matches |
| SecretMatches.KeyIsWiped | server/events.py:48-65 | text that opens with an Anthropic key, however long, is redacted to the marker and then the redaction of what follows the key |
| Redaction.RedactText | server/events.py:62-65 | the loop applies the five substitutions, in their order, with the marker [REDACTED] |
| Redaction.RedactedTextHasNoSecret | server/events.py:47-65 | no substring of a redacted text matches any of the five patterns |
| Redaction.RedactIsIdempotent | server/events.py:62-65 | redacting twice is redacting once |
| Redaction.CleanTextIsKept | server/events.py:62-65 | text in which no pattern matches passes unchanged |
| Redaction.ShapeIsKept | server/events.py:68-79 | redaction keeps keys, items and their places at every depth; a dataclass becomes a dictionary of its fields; other containers, enum members and values without strings pass as they are |
| Redaction.TextsAreRedactedExactly | server/events.py:68-79 | the string values of a nested value come out redacted, in their places, and no others appear, if and only if its containers other than dicts, lists and dataclasses (tuples, sets, ...) hold nothing to redact and its enum members carry no text |
| Redaction.RedactedValueHasNoSecret | server/events.py:68-79 | no string value at any depth of a redacted value contains a secret, if and only if the strings in its containers other than dicts, lists and dataclasses, and those behind its enum members, hold none |
| Redaction.ContainersAndEnumsPassBy | server/events.py:75-79 | a tuple or set and an enum member that come out with the secret they went in with |
| AgenticLoop.Model.Create | syndicate/nodes.py:337-342 | the model replies to the conversation it is shown, and what it is shown is recorded |
| AgenticLoop.TextOfConcat | syndicate/nodes.py:345-348 | the text of an answer joins its text blocks in order |
| AgenticLoop.RunTools | syndicate/nodes.py:350-363 | the j-th result belongs to the j-th tool call of the reply, has its id, and has the text and the error flag of the j-th tool run; there is no other |
| AgenticLoop.RunAgenticLoop | syndicate/nodes.py:320-365 | the conversation alternates from the prompt on, holds what the model replied to what it was shown, answers every tool call in the next message with what that tool run gave, shows 1+2i messages to the i-th call, and stops at the first completion or at the cap |
| AgenticLoop.OpensWithPrompt | syndicate/nodes.py:329-334 | its first message is the task, or the task, a fixed line and the feedback in full |
| AgenticLoop.ReportIsAnswerOrNote | syndicate/nodes.py:345-365 | the summary is the text of the reply that asked for no tools, and the note about the cap exactly when there was none |
| AgenticLoop.EveryCallShowsThePrompt | syndicate/nodes.py:329-342 | the i-th call, from 0, shows 1+2i messages, of which the first is the prompt |
| AgenticLoop.StopIsUnique | syndicate/nodes.py:336-348 | where the loop stops is settled: up to and with the first completion, or the cap |
| AgenticLoop.StubClient.constructor | syndicate/stub_llm.py:118-124 | a script with at least one turn, no calls yet |
| AgenticLoop.StubClient.NextTurn | syndicate/stub_llm.py:126-132 | turns in order, the last one for ever |
| AgenticLoop.StubClient.Create | syndicate/stub_llm.py:73-112 | records the messages and answers with the turn, one tool call a scripted call, numbered |
| AgenticLoop.ScriptedCallCount | syndicate/stub_llm.py:126-132 | scripted replies that stop in time number min(d+1, cap) when the first completion is at index d, and cap without one |
| AgenticLoop.ScriptedAttempt | syndicate/stub_llm.py:126-132 | a whole conversation with a model that answers from the script makes min(d+1, cap) calls when the first completion is at index d, and cap calls without one |
| AgenticLoop.RunScripted | syndicate/nodes.py:310-348 | the loop itself makes that many calls when it runs against a script |
| Sandbox.HeadIsStrippedOutput | syndicate/nodes.py:543-546 | HEAD is what git printed from the first character that is not blank to the last, and nothing when git failed |
| Sandbox.RuntimeClient.RunAction | syndicate/runtime/mock.py:14-17 | the mock echoes the command with exit code 0; any other client answers anything |
| Nodes.RunFastChecks | syndicate/nodes.py:368-381 | which checks run, with the answers of the client, and the first failing one or the note that all passed |
| Nodes.ChecksAreStatusAndTests | syndicate/nodes.py:42-381 | they are git status and, when it exits 0, python -m pytest |
| Nodes.MockExecutorNode | syndicate/nodes.py:388-394 | the mock executor logs its two actions, reports LOCAL_PASS and takes no strike |
| Nodes.ExecutorNode | syndicate/nodes.py:384-429 | the attempts of a visit: each a whole conversation with the model behind its strike, about the ticket and the feedback left by the attempt before it, followed by checks that the client answered from the next command on; all but the last failed, none past the limit; commands, log lines, status and counter follow from them |
| Nodes.ValidatorNode | syndicate/nodes.py:447-468 | on a real client issues once the ticket's own command, or python3 -m pytest -q when it has none; a failure leaves its truncated output and a strike, a success clears the diagnosis |
| Nodes.Git | syndicate/nodes.py:517-520 | one command, its reply and its log line |
| Nodes.PrepareRepository | syndicate/nodes.py:529-535 | a repository is created only if there was none, and the identity is set every time |
| Nodes.OversightGitNode | syndicate/nodes.py:510-580 | which commands a visit issues, in order, and what it returns for each way they can come back |
| NodeReports.ExecutorReports | syndicate/nodes.py:414-429 | a visit ends LOCAL_PASS, without a diagnosis, if and only if its last checks passed, and ESCALATED otherwise; it changes the log, the status, the counter and nothing else |
| NodeReports.AttemptsAreLogged | syndicate/nodes.py:408-413 | the i-th attempt leaves lines 2i and 2i+1 of the visit, under the number of its strike: its summary, and the outcome of its checks |
| NodeReports.MockReports | syndicate/nodes.py:388-394 | the two lines of a mock visit, and that it changes nothing but the log and the status |
| NodeReports.OutcomeOfGit | syndicate/nodes.py:537-578 | which of the five outcomes a git visit has, by the exit codes, and that DONE needs a HEAD that is there and differs |
| NodeReports.OversightReports | syndicate/nodes.py:517-580 | a git visit logs each command with its exit code and output, in order, and one reason for a strike; it never both strikes and says DONE |
| NodeReports.MessageOfTicket | syndicate/nodes.py:555-558 | the commit message names the ticket by its first id and its first title that are there, and joins the whole log |
| NodeReports.RoutersDecide | syndicate/nodes.py:244-597 | for each router and each way out of it, exactly when a run takes it |
| ReprText.ReprReadsBack | syndicate/nodes.py:408-413 | what a log line quotes can be read back, for every text |
| ReprText.ReprIsOneLine | syndicate/nodes.py:408-413 | and its quotation has no line break or other control character |
| Graph.EarlyNodesKeep | syndicate/nodes.py:177-255 | analyzer, architect and the first dispatch keep the invariant |
| Graph.ExecutorKeeps | syndicate/nodes.py:384-429 | every visit to the executor keeps the invariant |
| Graph.ValidatorKeeps | syndicate/nodes.py:447-476 | every visit to the validator and its router keep the invariant |
| Graph.OversightKeeps | syndicate/nodes.py:510-597 | every visit to the git node and its router keep the invariant |
| Graph.LateNodesKeep | syndicate/nodes.py:488-496 | escalate, advance and the last dispatch keep the invariant |
| Graph.RunKeepsInvariant | syndicate/nodes.py:626-668 | the invariant (strikes on record, escalations counted, log conserved, DONE earned, what each node may assume) holds after every run |
| RunTheorems.StrikesAreConserved | syndicate/nodes.py:401-468 | strikes = attempts + failed validations + unverified commits, at most M+1; the executor is entered only below M; at most M attempts and M times the cap calls to the model in a run |
| RunTheorems.FeedbackIsNeverStale | syndicate/nodes.py:329-423 | the text that opens every call of every attempt of a run is the ticket alone at the start and after a failed commit; otherwise the ticket, a fixed line, and in full the output of the check, or the truncated output of the validation, that failed just before the attempt |
| RunTheorems.DoneIsReal | syndicate/nodes.py:543-585 | in every reachable state that says DONE the repository's HEAD exists and differs from the one before staging |
| RunTheorems.DoneExactlyOnRealCommit | syndicate/nodes.py:537-580 | a git visit ends DONE if and only if files were declared, both commands exited 0, and HEAD exists and moved |
| RunTheorems.MockIsNeverDone | syndicate/nodes.py:574-580 | no mock run is ever DONE |
| RunTheorems.NoSilentSuccess | syndicate/nodes.py:488-496 | with declared files a run ends DONE, or ESCALATED after one visit to escalate that raised the count by one; LOCAL_PASS means no files and a passed validation; halted if and only if escalated above the cap |
| RunTheorems.EscalatesExactlyWhen | syndicate/nodes.py:471-496 | a finished run has been through escalate, once, if and only if its last validation failed or its ticket declares files and is not DONE; and only with its strikes used up |
| RunTheorems.LogBecomesOneEntry | syndicate/nodes.py:608-618 | a finished run has added one ledger entry that joins and counts every line it logged, in order, and its log is empty |
| RunTheorems.LogOnlyGrows | syndicate/nodes.py:386-580 | no node but advance shortens or rewrites the log |
| RunTheorems.RankDrops | syndicate/nodes.py:642-666 | each visit lowers a measure: a failed real cycle costs two strikes, a failed mock cycle one |
| RunTheorems.EveryRunEnds | syndicate/nodes.py:642-666 | at most 6 + 3⌈M/2⌉ visits on a real client and 6 + 3M on the mock (12 and 15 for M = 3), and a run can only stop at the end |
| RunTheorems.AdvanceThenEnd | syndicate/nodes.py:244-255 | after advance, dispatch always goes to the end |
| RunWitnesses.BoundsAreReached | syndicate/nodes.py:401-476 | the bound on visits is exact: for every limit some run reaches it, and with an odd limit its counter ends at M+1 |
| RunWitnesses.DoneIsReached | syndicate/nodes.py:543-585 | a run that ends DONE exists, and it is not halted however high the count was before it |
| RunWitnesses.EscalatedWithoutEscalate | syndicate/nodes.py:583-594 | a ticket without files can fail in every attempt, pass validation and end ESCALATED without a visit to escalate |
| RunWitnesses.ExhaustedYetDone | syndicate/nodes.py:425-429 | a ticket with files can fail in every attempt, pass validation, commit and end DONE |
| RunWitnesses.AStrikeIsReportedTwice | server/runner.py:57-67 | a run whose attempt events name its only strike twice, although the summary does not contain the word |
| GraphRun.VisitNode | syndicate/nodes.py:626-668 | each node method does what the transition system says of it, and the label of its visit is what the client answered, what the model replied, and the HEAD of each moment |
| GraphRun.OversightVisit | syndicate/nodes.py:543-573 | with a sandbox that is honest about HEAD only, what the node reads as HEAD, when it asks, is HEAD |
| Recording.TicketIsSettled | syndicate/nodes.py:177-236 | the ticket of a run is the one given, or else the stub, without an issue, and the architect's with one; no later node changes it |
| Recording.ValidationsAreOnRecord | syndicate/nodes.py:447-468 | each validation of a run stands on the client's record, at the place where the record stood at that visit, with the ticket's own command and the reply that was judged |
| Recording.DoneIsOnRecord | syndicate/nodes.py:510-585 | in every state that says DONE the client's record ends in a visit to git: its setup, HEAD, add of the ticket's files, commit with the ticket's name and the log so far, HEAD; add and commit exited 0, and the client's HEAD exists and moved between the two queries |
| GraphRun.RunGraph | syndicate/nodes.py:626-668 | the loop over the node methods ends; it is a run of the transition system with the labels of what really happened; each validation on a real client put the run's own ticket's command on the record; and a ticket that ends DONE has its commit there |
| Registry.PushKeepsTheLast | server/registry.py:30-32 | the bounded backlog holds the last entries after every append |
| Registry.BacklogIsConsecutive | server/registry.py:48-54 | the backlog is the last min(n, maxlen) envelopes and their numbers are consecutive |
| Registry.RunRecord.constructor | server/registry.py:24-46 | an empty backlog, no cursors, queued |
| Registry.RunRecord.NextSeq | server/registry.py:48-50 | numbers count up from 1 |
| Registry.RunRecord.Emit | server/registry.py:52-54 | the envelope is the newest in the backlog and the event is set |
| Registry.RunRegistry.constructor | server/registry.py:62-64 | no runs and none active |
| Registry.RunRegistry.TryStart | server/registry.py:66-72 | a fresh record becomes the active run if and only if none was active; otherwise nothing changes |
| Registry.RunRegistry.Finish | server/registry.py:74-76 | only the active run frees the place |
| Runner.ExtractAttempts | server/runner.py:46-68 | an attempt for each new line of an executor log that mentions a fast check, and the cursor moves to the log's end |
| Runner.ExtractEscalation | server/runner.py:71-99 | what changed in count and run status since the last update, and whether the ticket escalated |
| Runner.EmitUpdate | server/runner.py:121-156 | the envelopes of one update, in order, after those of all earlier ones |
| Runner.DriveRun | server/runner.py:102-189 | a whole run's envelopes, from the request to the end it came to, for every point where the stream or the last read can fail; the status is escalated, completed or failed accordingly |
| EscalationEvents.UpdateIsReported | server/runner.py:71-156 | each update has its stretch of envelopes: the node update with its delta, attempts from the executor only, and last an escalation exactly when the delta says ESCALATED or carries a count or a run status other than the last seen, holding just these |
| EscalationEvents.EscalationsAreTold | server/runner.py:71-99 | of a finished run: an ESCALATED ending, a visit to escalate and a halt are each told by an escalation envelope before the last one; a DONE run has such an envelope if and only if an executor update said ESCALATED, and it says no more than that |
| RunnerTheorems.AttemptsAreLinesOfChecks | server/runner.py:57-67 | the attempts of some lines are those lines that contain fast_check, in order, each with its line and number |
| RunnerTheorems.ServerTicket | server/runner.py:30-43 | a run of the server starts fresh, on a ticket titled by at most 80 characters of the request, without files |
| RunnerTheorems.LifecycleIsClosed | server/runner.py:102-189 | numbers 1..N, run_started first, exactly one terminal envelope, and it is the last |
| RunnerTheorems.SlicesPartitionTheLog | server/runner.py:53-68 | over a chain of executor logs every line of the last one is looked at exactly once, in order |
| RunnerTheorems.GraphLogsChain | syndicate/nodes.py:386-429 | the executor logs of a graph run are such a chain, and the last is a prefix of what the run logged |
| RunnerTheorems.RunsEmitFew | server/runner.py:117-189 | the strike limit bounds the envelopes of a run: fewer than 200 for M = 3 |
| RunnerTheorems.ServerRunsNeverCommit | server/runner.py:30-43 | a run that the server starts ends LOCAL_PASS or ESCALATED, never DONE |
| StrikeEvents.StrikeReadsBack | server/runner.py:62-66 | the number in front of a log line is read back as written |
| StrikeEvents.AttemptEventsNameTheStrikes | server/runner.py:46-68 | the strike numbers of a run's attempt events are, exactly, one for each attempt and a second one for each whose logged summary mentions a fast check |
| StrikeEvents.OneEventAStrikeWhenQuiet | server/runner.py:46-68 | the numbers lie within 1..M; they are one a strike, and strictly increasing, if and only if no logged summary mentions a fast check |
| StrikeEvents.EscapeSpellsFastCheck | server/runner.py:59 | a summary that does not contain the word although its logged form does |
| StrikeEvents.UnnumberedEventsAreGit | syndicate/nodes.py:517-559 | an attempt event without a number comes from a line of the git log |
| Stream.EventSource.constructor | server/app.py:162 | the cursor starts at `after` |
| Stream.EventSource.ScanBacklog | server/app.py:164-168 | a scan collects the retained envelopes past the cursor |
| Stream.EventSource.YieldFrame | server/app.py:169-170 | the oldest pending envelope goes on the wire before the cursor moves |
| Stream.EventSource.ResumeAfterYield | server/app.py:171-174 | the cursor takes the envelope's number; after a terminal one the stream returns |
| Stream.EventSource.ClearEvent | server/app.py:176 | the shared event is cleared whoever set it |
| Stream.EventSource.AwaitEvent | server/app.py:177-182 | the wait ends at once when the event is set |
| Stream.StreamClient.constructor | server/static/app.js:208-218 | a connection from the given number |
| Stream.StreamClient.OnMessage | server/static/app.js:220-231 | the envelope is rendered and its number becomes the resume cursor |
| Stream.StreamClient.OnError | server/static/app.js:248-252 | the connection is dropped |
| Stream.StreamClient.Reattach | server/static/app.js:255-257 | a reconnect, for the run still in view, resumes at the last number seen |
| StreamTheorems.PendingOfBacklog | server/app.py:164-168 | a scan finds exactly the emitted envelopes past the cursor and not older than the oldest retained |
| StreamTheorems.StepKeeps | server/app.py:157-182 | every step of producer or viewer keeps the stream invariant |
| StreamTheorems.ViewersSeeRisingNumbers | server/app.py:157-182 | for any backlog and any cursor a viewer's whole output rises strictly, and over all its connections a number is missing only where a scan's cursor was behind everything retained |
| StreamTheorems.EmitWakesSleepers | server/registry.py:52-54 | an emitted envelope lets every sleeping viewer wake and changes nothing else about any viewer |
| StreamTheorems.SetEventEndsTheWait | server/app.py:177-182 | a viewer sleeps only if the event is not set when it begins to wait |
| StreamTheorems.BacklogIsTheLast | server/registry.py:30-54 | under every interleaving the backlog is the last min(n, maxlen) envelopes |
| StreamTheorems.StreamEndsWithTerminal | server/app.py:169-174 | a stream returns only after a terminal envelope, which is the last thing it sent |
| StreamTheorems.WakeCoversWhatWasEmitted | server/app.py:163-182 | a viewer that woke, timed out or connected has sent everything emitted up to that moment before it sleeps again, whoever clears the event |
| StreamTheorems.WakeupsAreLost | server/app.py:176-179 | an interleaving in which a viewer sleeps unnotified behind an emitted envelope |
| StreamTheorems.ClientsRenderAPrefix | server/static/app.js:208-259 | while the run fits in the backlog, a client that started from 0 has rendered exactly envelopes 1..lastSeq, through any number of drops and reconnects |
| StreamTheorems.ReturnedMeansWholeRun | server/app.py:169-174 | a returned stream has put the whole run on the wire |
| StreamProgress.OwnStepsAdvance | server/app.py:163-182 | once everything is out, each step of a connection that was opened before the end brings it nearer to having returned and delivered, whatever has left the backlog |
| StreamProgress.NeverStuck | server/app.py:177-182 | until then a connection always has a step to take: nobody sleeps for good |
| StreamProgress.StreamsReturn | server/app.py:157-182 | once everything is out, a kept connection that was opened before the end takes at most 3N+4 steps, whatever other viewers clear and whatever has left the backlog, and has one to take until it has returned and delivered |
| StreamProgress.StreamsReturnExactlyInTime | server/app.py:162-182 | a kept connection to a finished run that has no step left to take, or has taken more than 3N+4, has returned if and only if it was opened with a number before the end |
| StreamProgress.StreamBoundIsReached | server/app.py:162-182 | a viewer that was opened before the end, takes all 3N+4 steps, and has then returned and delivered |
| StreamProgress.SentIsContiguous | server/app.py:164-172 | while the run fits in the backlog a connection sends the numbers right after its cursor, one by one |
| StreamProgress.ViewersFinish | server/app.py:157-182 | once everything is out, a client that keeps its connection has rendered the whole run after at most 3N+4 steps of its own, whatever other viewers clear, and until then has a step to take |
| StreamProgress.CanAlwaysFinish | server/static/app.js:248-258 | from every reachable state a client, connected or not, can still come to render the whole run |
| StreamProgress.LateStreamsNeverEnd | server/app.py:163-182 | a connection opened at or past the end sends no envelope and never returns |
| StreamProgress.BrowsersComeBackTooLate | server/static/app.js:248-258 | the browser's path there: it has the whole run, its stream has returned, it reconnects with the last number |
| Lifecycle.CreateRun | server/app.py:70-84 | 200 and a fresh active record, or 409 with the id of the run in the way and no change |
| Lifecycle.RunAndRelease | server/app.py:63-67 | when the place is free again the run's terminal envelope is the newest in its backlog |
| Lifecycle.AtMostOneRunIsUnfinished | server/registry.py:66-76 | under every interleaving of requests and runs at most one run is unfinished |
| Lifecycle.AcceptedOnlyAfterTerminal | server/registry.py:66-76 | a new run is accepted only when every earlier one has its terminal envelope as the newest in its backlog |
| Lifecycle.RunsAreClosed | server/runner.py:102-189 | the envelopes of every run are of the kind the two results above assume |
| Lifecycle.StepPost | server/app.py:70-84 | a request makes the move of the model on the registry |
| Lifecycle.StepProgress | server/registry.py:48-54 | so does an envelope that a run emits |
| Lifecycle.StepRelease | server/registry.py:74-76 | so does the end of a run |
| EndToEnd.ClientsSeeTheRunInOrder | server/app.py:157-182 | for every graph run, stopped anywhere, and any viewers that lag, drop and reconnect, each client has rendered a prefix of the run's envelopes, with no assumption on lag |
| EndToEnd.ServerViewersSeeTheRun | server/registry.py:21-54 | with three strikes and a backlog of 2000 that holds for every run the server starts, and a returned stream has sent all of it |
| EndToEnd.ViewersFinishTheRun | server/app.py:157-182 | for every graph run, stopped anywhere: once it is over, every client that keeps its connection renders all of it within a bounded number of its own steps |
| EndToEnd.FinalEnvelopeIsHonest | server/runner.py:158-177 | a client that has rendered the last envelope of a finished run with declared files was told DONE, and HEAD has moved, or ESCALATED |

## Left out

- HTTP, FastAPI, LangGraph, the SQLite checkpointer, Docker, the OpenHands adapter and the Anthropic SDK: a graph step is one node, its delta and an edge; replies and responses are arbitrary.
- Prompts of the analyzer and the architect, the parsing of their JSON, and `_detect_verification_command`: the planned ticket is any ticket.
- Exceptions inside nodes: they show only as the update stream stopping after any prefix of a run.
- `_run_tool` and file operations: a tool call's text and error flag are arbitrary, so every run covers whatever it does, and HEAD may change at any moment. The commands that tools send are not part of the record of commands, which holds those of the nodes. Working directories and timeouts of commands are not modelled.
- `repr` of a ticket is a given string, and which characters beyond ASCII `repr` prints as they are is a parameter.
- Strike numbers: `Runner.ParseStrike` reads ASCII digits; Python's `int` also takes signs, underscores and other digits. The nodes write ASCII digits only.
- Redaction and capping of payloads on their way into an envelope: `Runner` keeps payloads as the nodes made them and takes `make_envelope` to be total; `cap_payload`, timestamps and `format_sse` are not modelled, and no envelope lacks a number because the runner always gives one.
- Dictionary keys are not redacted, here and in the source, and are not counted among the string values. `asdict` also turns dataclasses inside a tuple into dictionaries; their strings stay the same, and the model leaves them.
- ShellWords.StagingRoundTrip: paths with a NUL character, which no argument can carry, are excluded.
- ShellWords.CommitRoundTrip: messages with a NUL character are excluded.
- Lone surrogates: a character is a Unicode scalar value, so text that Python could not encode is excluded.
- Git itself: index, hooks and pathspec globbing stand behind arbitrary replies and a HEAD that may be anything at any time.
- Wall-clock time: the heartbeat is a step that is always possible for a sleeping viewer, and nothing says how soon it comes.
- Lifecycle.AtMostOneRunIsUnfinished: run ids are taken never to repeat and tasks never to be cancelled.
- Lifecycle.AcceptedOnlyAfterTerminal: the same two assumptions, and a backlog that can hold an envelope.
- StreamTheorems.WakeCoversWhatWasEmitted: the backlog must be able to hold at least one envelope.
- StreamProgress.StreamsReturn: the backlog must be able to hold at least one envelope.
- Looking at another run in the same browser tab, rendering, polling, `/runs`, `/state` and `/health`.
