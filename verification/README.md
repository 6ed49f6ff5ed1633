# mcpshim: a model and its proofs

mcpshim is a daemon that keeps connections to MCP servers and HTTP services and
offers their tools through a command-line client. This project models the parts
of it that are hard to get right by testing, in Dafny, and proves what they are
for.

| module | what it models |
|---|---|
| `GoText`, `Json` | Go strings as bytes, trimming, splitting and joining; JSON values and nesting depth |
| `Inputs`, `InputMeaning` | the two checkers of tool arguments: of defaults when a configuration is loaded, and of values when a tool is called |
| `Template`, `FormatStrings`, `TemplateChecker`, `TemplateSoundness`, `TemplateHygiene` | the template language of HTTP tools (`$arg`, `$default`, `$omit_if_missing`, `$format`): its checker, its renderer, and how they fit together |
| `Percent`, `RawPaths`, `TypedPaths`, `TargetUrl`, `RequestTargets`, `PathMatch` | percent-encoding over bytes (section 2.1 and section 3.3 of RFC 3986), the normal form of raw paths, one argument per path segment, and the `*`/`**` allowlist |
| `Answers`, `Elicitation`, `Session` | the protocol by which daemon threads ask the user questions in the middle of a call |
| `ServerHealth`, `Registry`, `RetryDelays`, `RegistryRuns` | the health record of a server with its backoff retry, the registry that refreshes servers and caches their tools, and what its runs leave behind |
| `Config`, `OAuthStore`, `RegistryChange`, `CredentialBinding`, `StoredRows`, `RequestEffects`, `Daemon` | the configuration with its shared namespace, the OAuth tables, and the actions that change both |
| `History` | the bounded call history |
| `Expand`, `ShellQuote`, `Resource` | environment expansion, shell quoting, and OAuth resource indicators |

Code that is a calculation in the program is a function here. Code that works by
loops and assignments is a method, proved against a function or a predicate, and
the objects that it updates are classes; the theorems are lemmas about those
functions and about runs of them.

How the pieces are stated:

- A Go string is a sequence of bytes (`GoText.Text`). JSON numbers are reals.
- Errors are kinds. Where the program walks a map, and Go's iteration order
  decides which of several errors is reported, an outcome carries the set of
  possible kinds, and a method may report any of them.
- Concurrency is a state machine whose steps are the program's atomic sections,
  with every interleaving allowed.
- The clock, upstream answers, the user's replies and the file on disk are
  parameters, quantified over.
- A checker or an operation that is a function here has a second account of it
  that does not use its recursion or its branches: element by element, node by
  node, piece by piece, key by key, or by reading back what was written.
- Some fields are history that no operation looks at: the endpoint for which a
  credential was obtained, the order in which envelopes were written, the names
  of the servers that were attempted, and the log of attempts and updates.

Three claims that one might expect turned out to need a condition. Each is
proved as an equivalence or with its premise, next to an input that shows why:

- The raw path of a target URL decodes to its path exactly when the escaped path
  of the base URL does not end in an encoded slash
  (`TargetUrl.TargetFieldsAgree`, `TargetUrl.EncodedSlashBreaksAgreement`).
- The checker of defaults and the checker of values agree on null-free values; on
  others the first is stricter, by exactly one case
  (`Inputs.DefaultCheckerIsValueChecker`, `Inputs.DefaultCheckerIsStricterOnNulls`).
- A change of the configuration is sure to keep every credential with its
  endpoint exactly when it introduces no name for which the tables already hold a
  client, other than one that the request itself brings, or a token under the
  bare name (`StoredRows.SafeIffNothingLeftOver`). The tables do not say where a
  row was obtained, so that this is all that can be checked before the change. A
  name that is taken out of the file, reloaded, and put back with another URL
  breaks it (`CredentialBinding.DroppedNameExample`), because a reload
  deliberately leaves the rows of names that disappear
  (`internal/server/server.go:545-550`).

Also, an argument at the deepest template level always fails, even a scalar,
because it is copied one level further down
(`TemplateSoundness.DeepestArgumentFails`); and an authorization failure leaves
an older retry running (`Registry.AuthFailureLeavesRetry`), so that only the
ticker can be said never to bother a server that waits for a login.

## Model

| member | source | states |
|---|---|---|
| GoText.JoinSplit | internal/httpbinding/httpbinding.go:791-797 | splitting at a separator loses nothing: joining gives the text back |
| GoText.SplitJoin | internal/httpbinding/httpbinding.go:492-525 | pieces without the separator are got back from their join |
| Inputs.DefaultCheckerIsValueChecker | internal/config/http.go:468-511 | for a declaration that loads, a default is accepted iff the call-time checker accepts it and no null element meets an enum |
| Inputs.CheckersAgreeOnNullFreeValues | internal/httpbinding/httpbinding.go:441-490 | on values without nulls the load-time and the call-time checker agree exactly |
| Inputs.DefaultCheckerIsStricterOnNulls | internal/config/http.go:468-511 | an array of an enum with a null element passes at call time and not as a default |
| Inputs.ConfiguredDefaultIsAccepted | internal/config/http.go:438-466 | a default that was accepted at load is accepted at every call: a call never fails because of it |
| Inputs.ValidateTypedArguments | internal/httpbinding/httpbinding.go:413-439 | accepts iff every argument is declared, every required input is given and every given value is accepted; then returns the arguments with exactly the missing defaults added; otherwise the error names a real fault |
| Inputs.CopyKnownArguments | internal/httpbinding/httpbinding.go:414-420 | rejects iff some argument is not declared, whatever the iteration order |
| Inputs.CheckDeclaredInputs | internal/httpbinding/httpbinding.go:421-438 | the loop over the declared inputs completes the arguments with the defaults, in whichever order it visits them |
| Inputs.CheckInput | internal/httpbinding/httpbinding.go:421-437 | one input: rejected iff it is required and missing, or its value is not accepted |
| Inputs.FaultRefutesCall | internal/httpbinding/httpbinding.go:413-439 | a reported fault is the caller's: no call with it is acceptable |
| Inputs.AcceptedArgumentsAreChecked | internal/httpbinding/httpbinding.go:413-439 | what rendering may rely on: each argument is declared and accepted, and each required or defaulted input is present |
| InputMeaning.AcceptedIff | internal/httpbinding/httpbinding.go:441-490 | a value is accepted iff every element of it that is declared, however many arrays deep, has the declared type, is one of the listed texts and lies within both bounds |
| InputMeaning.AcceptableIff | internal/httpbinding/httpbinding.go:413-439 | no call is refused in vain: it is acceptable iff it names declared inputs only and, with the defaults, leaves nothing required out and nothing unaccepted in |
| InputMeaning.EffectiveAt | internal/httpbinding/httpbinding.go:421-428 | input by input: what the call gives, else the default, else nothing |
| InputMeaning.DeclarationLoadsIff | internal/config/http.go:438-466 | exactly which declarations load: at every array level a known type, constraints only where they apply, bounds in order and an acceptable default |
| Template.CloneJson | internal/httpbinding/template.go:100-128 | the deep copy is the value itself, and fails iff the value nests below the limit |
| Template.FormatText | internal/httpbinding/template.go:52-69 | the `$format` loop substitutes every placeholder, left to right, and stops at the leftmost missing or composite argument |
| Template.Placeholders | internal/httpbinding/template.go:54-66 | the matches of the placeholder expression are in order and do not overlap |
| Template.RenderNode | internal/httpbinding/template.go:24-98 | the recursive renderer with its loops reports an outcome that the recursive specification allows, value for value and with a possible error kind |
| Template.RenderObject | internal/httpbinding/template.go:72-82 | an object renders iff all its fields do, to exactly the fields that are not omitted |
| Template.RenderArray | internal/httpbinding/template.go:83-94 | an array renders element by element, in order; the first failing element decides |
| Template.RenderTemplate | internal/httpbinding/template.go:13-22 | a body is rendered from depth 0, and an omitted root is an error |
| FormatStrings.FormatFillsIn | internal/httpbinding/template.go:47-70 | a text written as literal pieces with names in braces between them comes to those pieces with what is printed for the arguments between them |
| FormatStrings.FormatBlames | internal/httpbinding/template.go:57-64 | otherwise the leftmost name that is missing or composite decides the error |
| FormatStrings.EveryTextIsWritten | internal/httpbinding/template.go:54-66 | every text is written so |
| FormatStrings.PlaceholderIff | internal/httpbinding/template.go:11 | what is found is exactly an input name in braces |
| FormatStrings.NamesAreSeen | internal/config/http.go:630-640 | the load-time checker sees exactly those names |
| TemplateChecker.AcceptedIff | internal/config/http.go:562-677 | the checker is exact: a template is accepted iff every node that a path leads to is well-formed by itself and at most 64 levels deep |
| TemplateSoundness.RenderingIsSound | internal/config/http.go:562-677 | type soundness: a checked template with checked arguments fails iff an inserted argument nests too deep or a format argument is composite, with no other error kind, and is omitted iff its root may be |
| TemplateSoundness.FormatIsSound | internal/httpbinding/template.go:47-70 | a checked format string never lacks an argument |
| TemplateSoundness.ScalarTypesFormatScalars | internal/httpbinding/template.go:61-64 | if every input in a format string has a scalar type, no checked call puts a composite value there |
| TemplateSoundness.CheckedCallRenders | internal/httpbinding/httpbinding.go:159-213 | end to end, from an acceptable call to the rendered template: which errors a caller can still see, the omitted root of a body among them, and exactly when |
| TemplateSoundness.ScalarToolsNeverFail | internal/httpbinding/httpbinding.go:159-213 | what a tool's author can check: if every input that the template uses is of a scalar type and no `$arg` lies at the deepest level, no accepted call fails to render |
| TemplateSoundness.DeepestArgumentFails | internal/httpbinding/template.go:36-38 | at the depth limit even a scalar argument is refused |
| TemplateHygiene.ArgumentsAreVerbatim | internal/httpbinding/template.go:24-98 | wherever the template says `$arg`, in objects, in arrays and in the defaults of absent arguments, the result holds the argument unchanged, even if it contains marker keys; omitted items close up and a fallback takes no place |
| TemplateHygiene.PartsArePlaced | internal/httpbinding/template.go:24-98 | rendering is compositional: each node that is not left out is rendered by itself and put in its place |
| TemplateHygiene.FormatsAreFilledIn | internal/httpbinding/template.go:47-70 | wherever the template says `$format`, the result holds the text with each name in braces replaced by what is printed for its argument |
| TemplateHygiene.LiteralsAreKept | internal/httpbinding/template.go:72-98 | wherever the template has no markers, the result holds what the template holds |
| TemplateHygiene.NothingElseAppears | internal/httpbinding/template.go:72-94 | a result has exactly the fields, and as many items, as its template has that are not left out |
| TemplateHygiene.OmittedIff | internal/httpbinding/template.go:31-46 | unless it fails, rendering omits exactly an absent argument that may be omitted down to its last default |
| TemplateHygiene.ResultsStayWithinTheLimit | internal/httpbinding/template.go:24-128 | no node of a result lies below the depth limit |
| TemplateHygiene.SixtyFourLevelsRender | internal/httpbinding/template.go:24-28 | the limit in levels: a body of 64 levels of objects and arrays below its root renders, one of 65 does not |
| TemplateHygiene.MarkerFreeTemplatesAreLiteral | internal/httpbinding/template.go:24-98 | a template without markers renders to itself, or fails because it is too deep |
| TemplateHygiene.RenderingIsLocal | internal/httpbinding/template.go:24-98 | arguments that agree on the names a template mentions give the same outcome, errors included |
| Percent.UnescapeEscape | internal/httpbinding/httpbinding.go:492-553 | decoding undoes encoding for every byte string, for segments and for whole paths |
| Percent.UnescapeConcat | internal/httpbinding/httpbinding.go:666-678 | decoding distributes over concatenation once the first part decodes |
| Percent.EscapedTextLacks | internal/httpbinding/httpbinding.go:517-522 | an encoded segment contains no byte that could end the segment |
| Percent.UnescapeJoin | internal/httpbinding/httpbinding.go:547-552 | segments encoded one by one and joined decode to the join of the segments |
| Percent.EscapedLength | internal/httpbinding/httpbinding.go:517-522 | encoding keeps letters, digits and the marks that may stand in a segment or a path, and adds two bytes for each of the others |
| Percent.EveryByteIsDecoded | internal/httpbinding/httpbinding.go:555-567 | a percent sign with two hex digits of either case stands for the byte of that code |
| Percent.DecodableIff | internal/httpbinding/httpbinding.go:535-538 | a text decodes iff every percent sign has its two hex digits |
| PathMatch.MatchIffCut | internal/httpbinding/httpbinding.go:799-816 | the matcher accepts iff the path can be cut into one block per pattern part: itself, any one segment, or any number |
| PathMatch.MatchConcat | internal/httpbinding/httpbinding.go:799-816 | matching distributes over concatenation of patterns, in both directions |
| PathMatch.DoubleStarCollapses | internal/httpbinding/httpbinding.go:803-809 | two adjacent `**` anywhere in a pattern mean the same as one |
| PathMatch.StarMatchesOne | internal/httpbinding/httpbinding.go:810-815 | `*` stands for one segment, whichever it is |
| PathMatch.PlainMatchesItself | internal/httpbinding/httpbinding.go:810-815 | a pattern without stars matches itself and nothing else |
| PathMatch.SegmentsAreRead | internal/httpbinding/httpbinding.go:791-797 | slashes around a path make no difference, and what is between them are its segments |
| PathMatch.MatchesAnyPath | internal/httpbinding/httpbinding.go:781-789 | the allowlist accepts iff some pattern has a cut that fits |
| RawPaths.PathSegmentTraverses | internal/httpbinding/httpbinding.go:555-567 | finds a dot segment under any number of encodings up to four |
| RawPaths.CanonicalizeRawPath | internal/httpbinding/httpbinding.go:527-553 | computes the canonical form or refuses, on every input |
| RawPaths.RawPathIsNormalForm | internal/httpbinding/httpbinding.go:527-553 | an accepted escaped path decodes to exactly the path that is checked, and is its own canonical form |
| RawPaths.AcceptedPathsDoNotTraverse | internal/httpbinding/httpbinding.go:542-552 | no segment of the path that is sent is a dot segment, now or after up to five decodings |
| RawPaths.AcceptedPathsStayInside | internal/httpbinding/httpbinding.go:527-553 | what is accepted is rooted once, has no backslash, and what is sent starts no query, fragment or host |
| RawPaths.HarmlessPathsAreAccepted | internal/httpbinding/httpbinding.go:527-553 | nothing else is refused: every path of segments that hide no dot segment, slash or backslash is accepted in its encoded form and means those segments |
| RawPaths.SentSegments | internal/httpbinding/httpbinding.go:547-552 | the segments of what is sent are the escaped segments of what was checked |
| RawPaths.AdmitRawPath | internal/httpbinding/httpbinding.go:215-313 | a raw path is admitted iff it has a canonical form whose decoded path the allowlist accepts; what is sent decodes to what was checked |
| TargetUrl.TargetFieldsAgree | internal/httpbinding/httpbinding.go:666-678 | the raw path of the target decodes to its path iff the base's escaped path does not end in an encoded slash |
| TargetUrl.EncodedSlashBreaksAgreement | internal/httpbinding/httpbinding.go:671-675 | the base http://host/a%2F: the two fields disagree |
| TargetUrl.TargetIsSentVerbatim | internal/httpbinding/httpbinding.go:666-678 | otherwise an escaped path goes out unchanged, behind the base's escaped path |
| RequestTargets.RawTargetIsSentVerbatim | internal/httpbinding/httpbinding.go:527-553 | every raw path that is admitted is such a path |
| RequestTargets.TypedTargetIsSentVerbatim | internal/httpbinding/httpbinding.go:492-525 | and so is every path that a checked tool renders from checked arguments |
| TargetUrl.EscapedPathDecodes | internal/httpbinding/httpbinding.go:671-677 | what is sent always decodes to the path field |
| TargetUrl.ParsedPathIsSentBack | internal/httpbinding/httpbinding.go:671-677 | the path of a base URL goes out as it was written, if it is a valid encoding, except that a lone %2A becomes a star |
| TypedPaths.RenderTypedPath | internal/httpbinding/httpbinding.go:492-525 | the loop renders every segment or reports the leftmost that fails |
| TypedPaths.TypedPathsAreFaithful | internal/config/http.go:372-405 | a checked tool with accepted arguments: fails iff a string argument is empty, a dot segment or contains a separator; otherwise as many segments as the template, each with the text of the argument, or the number as it is printed, or the decoded literal, before and after decoding |
| TypedPaths.WrittenPathsLoad | internal/config/http.go:372-405 | every path made of placeholders for required strings and integers and of encoded harmless texts loads |
| TypedPaths.JoinedSegments | internal/httpbinding/httpbinding.go:517-524 | texts without a slash become exactly those segments, encoded and decoded |
| Answers.PromptAnswersAreUnderstood | internal/mcp/session.go:91-102 | every answer that the client builds maps to an action, and content comes with an accept only |
| Answers.UpstreamIsToldWhatWasTyped | internal/client/client.go:1150-1201 | from what is typed to what upstream is told: accept iff the user said yes or replied with JSON at a terminal, cancel iff the reply there was to cancel, decline in every other case, and only an accepted form has content |
| Answers.ActionWordsAreApart | internal/mcp/session.go:91-102 | different words are never taken for one action, and no others are understood |
| Elicitation.StepKeepsInv | internal/server/session.go:32-63 | every step of every thread, the handler and the client keeps the invariant of mutex, streams and askers |
| Elicitation.EveryRunIsSafe | internal/server/session.go:32-63 | for any number of threads and any interleaving: the daemon writes a prefix of Elicit^k Final, the client a prefix of Request Answer^k, at most one envelope is unanswered, and the i-th envelope puts the question of the i-th asker, who gets the i-th answer |
| Elicitation.ReceivesOwnAnswer | internal/server/session.go:47-54 | the message that a thread decodes is the reply to its own question |
| Elicitation.NothingAfterFinal | internal/server/server.go:166-169 | streams only grow, and after the final response nothing is written to the client |
| Elicitation.OutstandingIsServed | internal/client/client.go:1131-1145 | while an envelope is unanswered, the client or its thread can move, whether or not the handler has returned |
| Elicitation.NeverStuck | internal/server/server.go:151-170 | no reachable state is stuck before the client has the final response and every thread has left |
| Elicitation.EveryRunCompletes | internal/server/server.go:151-170 | every run ends within 8N+11 steps, and where it ends the request is complete |
| Session.Session.RequestElicitation | internal/server/session.go:32-55 | writes one envelope and takes one message, or nothing at all once the session is finished |
| Session.Session.MarkFinished | internal/server/session.go:59-63 | after it no envelope is written |
| Session.Session.HandleConn | internal/server/server.go:151-170 | a handler may choose each question by the exchanges so far: the i-th question gets the i-th message, which is an answer or an error, and the final response follows the last envelope |
| Session.LateThread | internal/server/session.go:33-37 | a thread that comes after the final response is refused and leaves the stream alone |
| Session.ExchangeIsAtomic | internal/server/session.go:32-55 | between an envelope and its answer no step of anybody else writes an envelope, takes a message or finishes the session |
| ServerHealth.Run | internal/mcp/state.go:85-141 | after any sequence of operations on one record the channels are in order |
| ServerHealth.NoChannelIsClosedTwice | internal/mcp/state.go:118-141 | no cancel channel is closed twice, all but the pending one are closed, that one is open, and there is one iff a deadline is set |
| ServerHealth.StatusFollowsOutcomes | internal/mcp/state.go:85-114 | status and failure count are a function of the trace of outcomes: the count is the length of the trailing failure run, and the status its last outcome |
| ServerHealth.DelaysGrowWithinAFailureRun | internal/mcp/state.go:145-156 | with a nondecreasing schedule, the backoff delays of one failure run are positive, never shrink and are capped by the last entry |
| RetryDelays.MachineDelaysAreScheduled | internal/mcp/mcp.go:296-338 | the time from a failing attempt to the deadline that it sets is the backoff delay for the failures before it, whatever the record and the upstream |
| RetryDelays.MachineDelaysGrow | internal/mcp/mcp.go:296-338 | so the retries that consecutive failures of one record schedule never come closer |
| RetryDelays.EveryRunKeepsTrace | internal/mcp/mcp.go:83-356 | over every registry run, each delay that was scheduled is the backoff delay for the length of the failure run before it |
| RetryDelays.DelaysGrowOverEveryRun | internal/mcp/mcp.go:83-356 | in every run, through any interleaving of refreshes, ticks, retries and updates: between two successes of a server the retries scheduled for it never come closer, and wait no longer than the last entry |
| RetryDelays.FailuresWaitTheirEntry | internal/mcp/mcp.go:296-338 | in every run: a failure that needs no login, logged after k failures in a row, waits the k-th entry of the schedule, or the last, if that is positive; nothing else schedules a retry |
| RetryDelays.FirstFailureWaitsTheFirstEntry | internal/mcp/mcp.go:296-338 | so the first failure after a success, or of a new record, waits the first entry |
| RetryDelays.TimedStepsWaitForTheDeadline | internal/mcp/mcp.go:231-356 | what the backoff is for: after every run, no tick and no retry attempts a server before the deadline that its last failure set |
| RetryDelays.StatusFollowsTheRun | internal/mcp/state.go:85-114 | the status and failure count that a run leaves follow from the outcomes of the server since its record was made |
| ServerHealth.BackoffGrowsToItsCap | internal/mcp/state.go:145-156 | later attempts never wait less; each waits its own entry of the schedule, and from the last on the last |
| ServerHealth.DelaysAreTheSchedule | internal/mcp/state.go:145-156 | one after the other, the delays are the schedule itself and then its last entry for ever |
| ServerHealth.LastAttemptIsShown | internal/mcp/state.go:85-114 | the record shows the time of the last attempt, and its error or none after a success |
| ServerHealth.LastSuccessIsShown | internal/mcp/state.go:85-114 | and the time of the last success, whatever failed since |
| ServerHealth.DefaultBackoffIsNondecreasing | internal/mcp/state.go:21-28 | the built-in schedule is such a schedule, from five seconds to five minutes |
| ServerHealth.ServerState.RecordSuccess | internal/mcp/state.go:85-94 | resets the record and closes a pending channel, once |
| ServerHealth.ServerState.RecordFailure | internal/mcp/state.go:98-114 | sets status and count, returns the backoff index, and leaves a pending retry alone |
| ServerHealth.ServerState.ScheduleRetry | internal/mcp/state.go:118-126 | replaces a pending retry: closes its channel and hands out a new, open one |
| ServerHealth.ServerState.CancelRetryLocked | internal/mcp/state.go:129-135 | never closes a closed channel |
| ServerHealth.ServerState.SkipPeriodic | internal/mcp/state.go:71-81 | the ticker leaves a server alone iff it needs a login or has a deadline in the future |
| Registry.StepKeepsInv | internal/mcp/mcp.go:83-326 | every update, refresh, tick and retry keeps: one record per configured server, tools cached for configured entries only, a cached MCP server healthy |
| Registry.StartIsInv | internal/mcp/mcp.go:63-81 | a new registry for an accepted configuration satisfies that invariant |
| Registry.EveryRunKeepsInv | internal/mcp/mcp.go:83-326 | so in every reachable registry |
| Registry.TickAttemptsExactly | internal/mcp/mcp.go:231-252 | a tick attempts, in order, exactly the servers that need no login and have no deadline in the future, as of before the tick |
| Registry.UserRefreshAttemptsAll | internal/mcp/mcp.go:194-205 | a user refresh attempts every server |
| Registry.ParkedServerStaysParked | internal/mcp/state.go:53-81 | with no retry of its own outstanding, no run of ticks and of other servers' retries attempts a server that needs a login |
| Registry.BackoffIsRespected | internal/mcp/mcp.go:231-356 | a tick or retry before a server's deadline neither attempts it nor touches its record |
| Registry.AuthFailureLeavesRetry | internal/mcp/mcp.go:304-315 | an authorization failure leaves an older retry running |
| Registry.RetryAttemptsItsServer | internal/mcp/mcp.go:345-354 | which then attempts its server all the same |
| Registry.RetryReachesItsServer | internal/mcp/mcp.go:346-350 | a retry looks its server up by name or alias and reaches the server of that name |
| Registry.NamesAreApart | internal/config/http.go:234-250 | no HTTP service has the name of a server, so cached service tools never stand in for a server's |
| RegistryRuns.StepIsLogged | internal/mcp/mcp.go:83-356 | every step adds to the log exactly its attempts, each with the answer that upstream gave, or the names that an update keeps |
| RegistryRuns.OnlyUpdatesReconfigure | internal/mcp/mcp.go:83-106 | nothing but an update changes which servers and services there are |
| RegistryRuns.ToolsFollowTheRun | internal/mcp/mcp.go:83-326 | after every run the tools listed for a server are those of its last answer since the last update, and none if that was a failure |
| RegistryRuns.RetriesAreDue | internal/mcp/mcp.go:330-356 | after every run the retry that the last failure scheduled can fire from its deadline on, and not before |
| RegistryRuns.ServicesAreListed | internal/mcp/mcp.go:211-221 | after a refresh and after a tick every service is listed with its own tools |
| Registry.Registry.constructor | internal/mcp/mcp.go:69-81 | one new record per configured server |
| Registry.Registry.UpdateConfig | internal/mcp/mcp.go:83-106 | the loops compute the update step |
| Registry.Registry.RefreshOneServer | internal/mcp/mcp.go:296-326 | one attempt: record, cache and retry together |
| Registry.Registry.ScheduleBackoffRetry | internal/mcp/mcp.go:330-338 | no retry when the delay is not positive |
| Registry.Registry.CacheHTTPServices | internal/mcp/mcp.go:211-221 | every service's tools, and nothing else, are cached anew |
| Registry.Registry.Refresh | internal/mcp/mcp.go:194-205 | the loop is the refresh step |
| Registry.Registry.RefreshPeriodic | internal/mcp/mcp.go:231-252 | the loop is the tick |
| Registry.Registry.RefreshServer | internal/mcp/mcp.go:283-293 | an unknown name changes nothing |
| Registry.Registry.FireRetry | internal/mcp/mcp.go:339-356 | the retry goroutine after its timer |
| Config.FindServer | internal/mcp/mcp.go:993-1000 | the first server that answers to a name or alias |
| Config.FindHTTPService | internal/mcp/mcp.go:1002-1009 | the first service that answers to a name or alias |
| Config.LookupIgnoresOrder | internal/server/server.go:571-598 | in an accepted configuration every lookup gives the same entry for every order of the entries, and no key reaches both a server and a service |
| Config.ServerForIsTheMatch | internal/server/server.go:588-598 | whichever server answers is the one that is found |
| Config.CanonicalNameIsCanonical | internal/server/server.go:571-586 | the canonical name is its own canonical name, so history is kept under one identifier |
| Config.NamesReachTheirEntries | internal/server/server.go:571-598 | every server and service is reached under its name and its alias, by nothing else, and both have its name as canonical name |
| Config.Config.Validate | internal/config/config.go:265-315 | accepts iff every server and service is sound by itself and the identifiers of all of them are pairwise disjoint |
| Config.SoundPerTransport | internal/config/config.go:274-300 | a server is accepted on its own iff it has a name and, for stdio, a command and neither URL nor headers, and otherwise a URL that is not blank once expanded and nothing of a command |
| Config.Config.ValidateServers | internal/config/config.go:272-313 | the loop accepts iff all servers are sound and their identifiers pairwise disjoint, and ends with exactly the identifiers taken |
| Config.Config.ValidateHTTPServices | internal/config/http.go:234-250 | services share the namespace of the servers |
| Config.Config.Normalize | internal/config/config.go:110-150 | a decoded file loads iff its transports are known and its normal form is valid |
| Config.LoadedIsNormal | internal/config/config.go:110-150 | a loaded configuration is in normal form: transports normalised and every alias set |
| Config.NormalReloadsAsItself | internal/config/config.go:213-240 | what is saved is loaded again unchanged |
| Config.TransportIsNormalOnce | internal/config/config.go:49-60 | normalising a transport twice is normalising it once |
| Config.TransportWords | internal/config/config.go:49-60 | which words name which of the three transports, blank and case aside |
| Config.StoredKeepsTheRest | internal/config/config.go:321-327 | apart from the transport and an alias that was not set, a server is stored as it was given |
| Config.LoadingKeepsTheRest | internal/config/config.go:110-150 | loading changes nothing else either, and leaves a bound on the history: 1000 if there was none |
| Config.Config.UpsertServer | internal/config/config.go:317-346 | all or nothing: on an error the configuration is as before |
| Config.UpsertAcceptedIff | internal/config/config.go:317-346 | into an accepted configuration an item is accepted iff it is sound and none of its identifiers belongs to anybody else |
| Config.UpsertKeepsOthers | internal/config/config.go:328-345 | every other server stays where it was in the order |
| Config.UpsertIsFound | internal/config/config.go:317-346 | afterwards the item is reached under its identifiers, and everybody else as before |
| Config.UpsertKeepsNormalForm | internal/config/config.go:321-327 | the stored item is in normal form |
| Config.Config.RemoveServer | internal/config/config.go:348-356 | removes the server of that name, if there is one |
| Config.RemoveKeepsOthers | internal/config/config.go:348-356 | the rest is exactly the servers of other names, in order |
| Config.RemoveKeepsValidity | internal/config/config.go:348-356 | removing keeps a configuration valid and in normal form |
| Config.RemoveUndoesUpsert | internal/config/config.go:317-356 | adding a server of a new name and removing it again changes nothing |
| OAuthStore.Store.DeleteTokens | internal/store/sqlite.go:353-366 | removes exactly the rows of the given keys, and never the empty key |
| OAuthStore.Store.AdoptToken | internal/store/sqlite.go:372-391 | moves the legacy row iff the new key has none |
| OAuthStore.Store.SaveOAuthClient | internal/store/sqlite.go:336-349 | one row per name |
| OAuthStore.Store.DeleteOAuthClient | internal/store/sqlite.go:395-404 | removes that row only |
| OAuthStore.Store.ForgetServer | internal/server/server.go:451-454 | everything that is kept for a server at its endpoint is removed, and nothing else |
| OAuthStore.HasOAuthState | internal/mcp/token_store.go:46-52 | reports a token for the present endpoint or a client, after adopting a legacy token |
| OAuthStore.AdoptionKeepsTheToken | internal/mcp/token_store.go:30-43 | adoption never replaces or loses a token, and happens at most once |
| RegistryChange.NameLookup | internal/server/server.go:588-598 | a configured name is looked up as the server of that name, though aliases are looked at too |
| RegistryChange.UrlsAfterUpsert | internal/config/config.go:317-346 | an upsert changes what its own name stands for and nothing else |
| RegistryChange.UrlsAfterRemove | internal/config/config.go:348-356 | after a removal the name stands for nothing, and every other for what it did |
| CredentialBinding.PreviousIsReplaced | internal/server/server.go:435-454 | the server that add_server compares with is the one it replaces |
| CredentialBinding.ForgetRepointedClients | internal/server/server.go:551-567 | a reload drops exactly the clients of the servers that it re-points |
| CredentialBinding.ForgetRepointedTokens | internal/server/server.go:551-567 | and exactly their tokens |
| CredentialBinding.StepKeepsConfig | internal/server/server.go:400-541 | every action leaves a valid configuration in normal form |
| CredentialBinding.StepKeepsBindingsIff | internal/server/server.go:400-567 | for a known history: a step keeps every credential with its endpoint iff it introduces no name with rows that were obtained at another endpoint |
| CredentialBinding.CredentialsStayWithTheirEndpoint | internal/server/server.go:400-567 | over every run of add_server, remove_server, set_auth, reload, login and logout in which names leave by remove_server only, stored clients and usable tokens belong to the present endpoint of their server |
| CredentialBinding.UsedCredentialsFitTheEndpoint | internal/mcp/token_store.go:19-52 | the client and the token that are used at a server were obtained for its resolved URL |
| StoredRows.HistoryIsNotLookedAt | internal/server/server.go:400-567 | states that agree on the file and the tables still do after any action, whatever the histories of their rows |
| StoredRows.SafeIffNothingLeftOver | internal/server/server.go:400-567 | the condition on what is stored: an action keeps every credential with its endpoint, for every history that the tables may have, iff no name that it introduces has a client that the request does not replace, or a token under the bare name |
| StoredRows.CheckedRunsAreSafe | internal/server/server.go:400-567 | a run whose every action passes that check ends with every credential at its endpoint |
| StoredRows.RemovalLeavesNothingOver | internal/server/server.go:464-484 | where names leave by remove_server only, every action passes it |
| CredentialBinding.StepSparesOthers | internal/server/server.go:400-567 | a step leaves alone all rows of servers that it neither names nor re-points |
| RequestEffects.LogoutForgets | internal/server/server.go:342-365 | after a logout neither the bound nor the legacy token of the server that the key reaches is stored, with the flag nor is its client, so that credentials are reported iff a client was kept; every other row is as before |
| RequestEffects.LoginStores | internal/mcp/oauth.go:138-195 | the token that the exchange brought is stored, else the bound one stays, else the legacy one is adopted; a client that was registered is stored, and nothing else changes |
| RequestEffects.AddStores | internal/server/server.go:420-463 | the item is found under its name; its old credentials are dropped iff its endpoint moves, then its new client is stored, and nothing else changes |
| RequestEffects.RemoveDrops | internal/server/server.go:464-484 | the server goes, and exactly its client and its tokens at its endpoint with it |
| RequestEffects.SetAuthStores | internal/server/server.go:485-518 | the new headers are merged into those of the one server, its client is stored, and no token changes |
| RequestEffects.ReloadDrops | internal/server/server.go:519-567 | of every client and every token: dropped iff its name moves and it was kept for the endpoint that is left |
| RequestEffects.AddSucceedsIff | internal/server/server.go:420-447 | accepted iff writes are allowed, the item is sound and nobody else has one of its identifiers |
| RequestEffects.RemoveSucceedsIff | internal/server/server.go:464-476 | accepted iff writes are allowed and there is a server of that name |
| RequestEffects.SetAuthSucceedsIff | internal/server/server.go:485-509 | accepted iff writes are allowed and there is a server of that name, which for new headers is not a stdio server |
| RequestEffects.ReadOnlyRunsKeepTheConfiguration | internal/server/server.go:408-419 | with writes switched off, no run without a reload changes the configuration |
| CredentialBinding.LeftEndpointIsForgotten | internal/server/server.go:447-567 | when a server leaves its endpoint, what was kept for it there is gone; if a reload drops the name, nothing is |
| CredentialBinding.DroppedNameBringsItsClientBack | internal/server/server.go:543-567 | dropping a name by a reload and bringing it back at another endpoint brings its old client with it |
| CredentialBinding.DroppedNameExample | internal/server/server.go:543-567 | one such input |
| Daemon.Save | internal/config/config.go:213-240 | accepts iff the configuration is valid; reading back what was written adds no further failure |
| Daemon.ForgetRepointedOAuthState | internal/server/server.go:551-567 | the loop over the previous servers forgets the re-pointed ones |
| Daemon.Server.AddServer | internal/server/server.go:420-463 | is the add step: it fails without effect or changes both the configuration and the rows |
| Daemon.Server.RemoveServer | internal/server/server.go:464-484 | is the remove step |
| Daemon.Server.SetAuth | internal/server/server.go:485-518 | is the set_auth step |
| Daemon.Server.Reload | internal/server/server.go:519-539 | is the reload step |
| Daemon.Server.ApplyRegistryChange | internal/server/server.go:400-541 | registry writes are gated, errors change nothing, and the registry is updated iff the configuration is replaced |
| Daemon.Server.Logout | internal/server/server.go:342-365 | clears the bound and the legacy token, and with the flag the client |
| Daemon.Server.Login | internal/mcp/oauth.go:138-195 | what using OAuth at a server stores, after adopting a legacy token |
| History.PruneKeepsLast | internal/store/sqlite.go:131-139 | deleting the rows that are not among the newest leaves the last rows of the table |
| History.History.InsertHistory | internal/store/sqlite.go:99-147 | the new row, and of the old ones as many of the last as fit |
| History.History.ListHistory | internal/store/sqlite.go:149-229 | the last min(limit, 500) matching rows, oldest first, where a limit that is not positive means 50 |
| History.ReverseInPlace | internal/store/sqlite.go:224-226 | the swapping loop reverses the slice |
| History.History.ClearHistory | internal/store/sqlite.go:231-269 | removes exactly the matching rows and returns their number; a filter together with the flag, or neither, is an error without effect |
| History.ClearPartitions | internal/store/sqlite.go:246-268 | the rows that are cleared and those that are left make up the table |
| History.ListedRows | internal/store/sqlite.go:149-229 | what is listed are wanted rows, oldest first, 50 unless asked otherwise and at most 500, and none that is left out is newer |
| History.ClearedRows | internal/store/sqlite.go:246-268 | a clear leaves exactly the rows that its filter does not select, in their order |
| History.ClearedIsEmpty | internal/store/sqlite.go:149-269 | after a clear, the same filter lists nothing |
| History.HistoryIsABoundedSubsequence | internal/store/sqlite.go:99-269 | over any run of inserts and clears the table is an order-preserving part of the inserts, and never larger than the bound |
| History.InsertsKeepTheLast | internal/store/sqlite.go:99-147 | without clears it is exactly the last inserts |
| Expand.ExpandEnvStrict | internal/config/expand.go:21-79 | the one-pass scanner computes the meaning of the token grammar, for all inputs and environments |
| Expand.ScanToken | internal/config/expand.go:32-76 | one round of the loop consumes exactly the first token |
| Expand.ScanName | internal/config/expand.go:67-76 | a bare reference takes the longest name |
| Expand.ScanBraced | internal/config/expand.go:46-66 | a reference in braces ends at the first closing brace; without one, the dollar sign is plain |
| Expand.TokensAreLossless | internal/config/expand.go:21-79 | reading a value as tokens loses nothing |
| Expand.TokensAreReadBack | internal/config/expand.go:21-89 | whatever tokens are written, as long as none runs into the next, exactly those are read |
| Expand.ReferencesStandForValues | internal/config/expand.go:21-89 | a letter or underscore followed by letters, digits and underscores is a name, and a reference to it, with or without braces, stands for its value or is reported |
| Expand.DoublingProtects | internal/config/expand.go:40-45 | doubling every dollar sign and expanding is the identity, with nothing missing |
| Expand.ExpansionDistributes | internal/config/expand.go:21-79 | expansion distributes over concatenation wherever a token ends |
| Expand.MissingIsLeftmost | internal/config/expand.go:22-29 | the reported name is that of the leftmost plain reference to an unset variable with a name |
| Expand.FallbackIsVerbatim | internal/config/expand.go:53-60 | a fallback is inserted as it stands, and only when the variable is unset or empty |
| ShellQuote.QuotedIsOneWord | internal/client/client.go:1439-1444 | by the quoting rules of POSIX.1-2017, section 2.2.1 and section 2.2.2, a quoted text is one word whose value is the text, in front of a blank or an operator, and at the end of a line or of the input |
| ShellQuote.QuotedLineIsReadBack | internal/client/client.go:1425-1444 | a line of quoted arguments is read as exactly those arguments |
| ShellQuote.ScriptLineIsReadBack | internal/client/client.go:1425-1444 | behind plain words of the script, a quoted text is read as one more word, and what follows it as it would be by itself |
| ShellQuote.ToolsLineIsReadBack | internal/client/client.go:1426 | the command that lists the tools, in front of a newline or a semicolon, is read as its words and the server's name, whatever that name is |
| Resource.CanonicalIsIdempotent | internal/mcp/resource.go:47-63 | the canonical form of a canonical form is itself |
| Resource.CanonicalStays | internal/mcp/resource.go:47-63 | a URL is canonical iff it is absolute, in lower case, without a fragment, and its path is not a bare slash |
| Resource.SameCanonicalIff | internal/mcp/resource.go:47-63 | two URLs have one canonical form iff they differ in case, in the fragment and in a bare slash only: path and query are kept |
| Resource.FoldIsLowerCase | internal/mcp/resource.go:178-193 | for ASCII texts, equality up to case is equality in lower case |
| Resource.CoversIff | internal/mcp/resource.go:178-193 | covering is equality of scheme and host up to case together with a prefix of path segments |
| Resource.CoversIsTransitive | internal/mcp/resource.go:178-193 | covering is transitive |
| Resource.CoversIsReflexive | internal/mcp/resource.go:178-193 | and reflexive on URLs without a fragment |
| Resource.CoveringBothWays | internal/mcp/resource.go:178-193 | two resources that cover each other have the same segments |
| Resource.ResolutionCovers | internal/mcp/resource.go:87-131 | whatever is published, the resource that is sent covers the server's canonical URL, and none is sent iff there is no such URL |
| Resource.ResolutionIs | internal/mcp/resource.go:87-131 | the resource that the first readable location names is sent if it covers the server, and the canonical URL in every other case |
| Resource.WhereMetadataIs | internal/mcp/resource.go:161-176 | metadata is looked for under the well-known path in front of the server's own (section 3.1 of RFC 9728), then at the root |
| Resource.ResourceResolver.Resolve | internal/mcp/resource.go:87-105 | decides at the first call and keeps the decision |
| Resource.FetchPublishedResource | internal/mcp/resource.go:109-131 | the first location with readable metadata decides |
| Resource.ResolveAgain | internal/mcp/resource.go:87-131 | two calls agree whatever is published in between |
| Resource.ResourceIsAddedOnce | internal/mcp/resource.go:197-212 | the parameter is added once, and nothing else of the query changes |

## Left out

- Network and process I/O, transports, the headers helper, the browser and the callback server: upstream answers are parameters.
- Parsing and printing of JSON, YAML, URLs, MIME types and SQL: the model starts from decoded values. Regular expressions are character predicates.
- Error texts: errors are kinds.
- Inputs.ValidateTypedArguments: which of several faults is reported is left open, because Go's map order decides it.
- Template.RenderNode: for the same reason it may report any of the possible error kinds of an object.
- Template.FormatText: how a scalar is printed is a parameter; floating-point printing is not modelled.
- TypedPaths.RenderTypedPath: how a number is printed is a parameter, of which the theorems assume that an integer is printed with a sign and digits.
- Conversion of out-of-range floating-point numbers to 64-bit integers is architecture-dependent in Go; the integer check is taken on the mathematical value.
- Arrays of other Go types than []interface{}, which reflection would handle: decoded values do not contain them.
- GoText.LowerCaseStays: lower case is exact wherever the result is ASCII; other letters are left as they are, which no comparison in the model looks at.
- Resource.CoversIff: folding of case is exact for ASCII and the two code points that fold to it; other letters are compared as bytes.
- Resource.CanonicalIsIdempotent: user information in a URL is not part of the record.
- Session.Session.HandleConn: the handler asks one question at a time; threads that ask at once are the machine of `Elicitation`.
- Elicitation.EveryRunCompletes: failing reads and writes, and timeouts, end a connection early and are not steps of the machine.
- Registry.Registry.RefreshOneServer: health records are values in the map; the objects with their channels are `ServerHealth.ServerState`, so that two names sharing one object is not modelled.
- Registry.StepKeepsInv: an attempt is one step. The lock is released around the fetch, and a configuration update in between could leave a stale cache entry.
- Registry.Registry.UpdateConfig: the cancelled records of dropped servers are not kept.
- Daemon.Server.Login: the exchange and its writes are one step; a login that overlaps a change of the configuration may store rows for the previous endpoint.
- Daemon.Server.Reload: a change of the database path, which opens another store, is not modelled; neither is a daemon without a store.
- Daemon.Server.ApplyRegistryChange: the file system does not fail, and neither does the store.
- OAuthStore.AdoptionKeepsTheToken: the digest in a token key is taken to be injective, and no server name looks like another server's key.
- Config.Config.Validate: of one HTTP service, as for Config.Config.ValidateHTTPServices, most checks are one flag.
- Config.Config.Normalize: the defaults of a service's policy and raw tool are inside that flag, too.
- Config.Config.ValidateHTTPServices: of one service, the name and the base URL's variables are modelled, and everything else that is checked is one flag; which error is returned first is not stated.
- Tables are kept in the order of their ids, and ids are not reused, as AUTOINCREMENT has it. Timestamps and arguments of history rows are not decoded.
- Header allowlists, content types, status lists, request and response sizes, and protected headers: each is one branch.
- Generated shell aliases: their names can collide, so that there is no invariant to prove. Command dispatch, help and manifest texts are output only.
