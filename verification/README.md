# Verified models of selected DaloyJS components

Each module models one self-contained piece of the repository in Dafny: what it computes, step by
step where the original works step by step, and a theorem about it that no single function body
shows. `dafny verify dfyconfig.toml` checks everything.

- **Agent session and approval protocol** (`examples/agent-loop.ts`). `AgentProtocol` is a
  transition system whose transitions are the pieces of code between two suspension points, so
  loops and handlers of any number of sessions interleave at every `await` and `yield`, the one
  inside the approval handler included. `AgentSafety` keeps its invariant, `AgentRuns` proves
  approval before every risky run, `AgentDecisions`, `AgentSingleUse` and `AgentLostCalls` say exactly
  what overlapping decisions can do, `AgentBudget` bounds the steps, `AgentOwners` and `AgentAlone`
  separate the owners, up to the theorem that an owner gets from any interleaving what it gets from
  the run of its own events. `AgentReference` is a second definition, on the events alone and with every text written
  out, that the runs are proved to follow: log, tokens, answers, and the history of every session.
  `SessionKey` shows the JSON key injective, and `AgentServer` shows that classes updating
  a `Map` of session records in place make exactly these transitions and stay on runs.
- **JSONC comment stripper** (`JsonComments`), against a token grammar of JSONC text.
- **Fisher-Yates shuffle** (`Shuffle`): draws and permutations correspond one to one.
- **Calendar validation and ageing** (`Calendar`): ECMA-262 day arithmetic against Gregorian dates.
- **WebSocket frames** (`WsFrames`, `FrameSinkProtocol`, `FrameSink`): the frame printer, the
  repository's parser (sections 5.2 and 5.3 of RFC 6455) and its streaming assembler, on values
  and in place.
- **Multipart printer** (`Multipart`), against a parser of section 5.1.1 of RFC 2046 and section 4
  of RFC 7578.
- **Ambiguous-alternation test** (`Alternation`): what it means for unique parsing, and the exact
  criterion for that.
- **Remote-exec scanner** (`RemoteExec`): quote-aware scanning, offsets to lines, three passes;
  `RemoteReports` says what is reported by the places where patterns match; `LineComments` on which sources it takes out exactly what a reader who carries literals and
  block comments from line to line takes for comments.
- **License expressions** (`Licenses`, `LicenseLists`): a string evaluator against tree semantics.
- **Bounded body reader** (`BoundedBody`), **invisible-character scanner** (`InvisibleUnicode`) and
  **tenant store** (`Tenants`): loops and mutable maps against simple specifications.

`Common` and `Text` hold shared datatypes and JavaScript string searching.

## Where a promise holds only on a condition

- **Dead tokens and single use of an approval.** The decision handler compares the token with the
  call it read before its `await` (`examples/agent-loop.ts:245-258`). No decision request that starts
  later matches a token whose call is no longer pending (`DeadTokensStayDead`); a handler that holds
  the call already still accepts it, and only then (`DeadTokenAcceptedIffHeld`). That decision clears
  whatever is pending: a pending call can be lost to a decision on another call if and only if a
  handler of its session already holds another call with an issued or coming token (`LostIff`). Its
  own token is then dead and, held by nobody, never accepted (`SupersedingCallIsLost`);
  `LostCallIsReachable` is such a run, without overlapping decisions.
  When handlers are not interrupted at the `await`, every accepted decision is for the pending call
  (`AcceptedIsPending`, `DeadIsNeverAccepted`) and approvals are for single use
  (`UninterruptedIsSingleUse`). From a reachable state, every continuation whose new
  requests do not overlap decides each call at most once if and only if no call with an issued or
  coming token is held by two handlers, or by one although it is decided (`DecidedOnceIff`), and
  likewise for runs (`RunOnceIff`); from the start there is nothing of the kind, so calls are decided
  once and run once (`SerialDecisionsAreSingleUse`). `OverlapIsReachable` is the failing run.
  What needs no condition: approval before every risky run, one run per grant.
- **Chunking of a WebSocket stream.** `decodeClosePayload` is documented to raise a protocol error
  for a close reason that is not UTF-8; the code raises the decoder's TypeError, which `push` does
  not catch. It leaves `push` exactly when the bytes hold such a frame (`PushThrowsIff`), and every
  chunking of a stream gives the same result if and only if no such frame has a whole frame or an
  error behind it, empty chunks or not (`ChunkingDoesNotMatterIff`); `BadReasonLeavesInput` is the simplest case.
- **Multipart data.** A delimiter is CRLF, two dashes and the boundary; data that merely begins with
  the dashes and boundary is cut too, because the blank line in front of it supplies the CRLF. The
  round trip holds if and only if no data contains a delimiter or begins that way.
- **Legacy license lists.** The joined string is allowed exactly when `Contributes` holds of some
  entry (`JoinedExactly`). For bare entries that is "some entry is allowed" (`JoinedLaw`); a
  parenthesised entry loses its first and last branch, or everything when it stands alone
  (`AloneIsLost`, `ParenthesesAreLost`).
- **Ambiguity.** A group that is not flagged parses uniquely under repetition; a flagged one parses
  some text in two ways exactly when the suffix that dangles between two overlapping alternatives can
  be closed (`ParsesTwiceIffClosable`), and chains of distinct suffixes are enough to see it
  (`ParsesTwiceIffShortChain`); it cannot be closed for `a|ab` (`FlaggedMayStillBeUnique`).
- **Comments of a scanned source.** The scanner carries only an open block comment from line to line
  and looks for the last `/*` and `*/` of a line without regard to literals or to other comments. So a
  comment that is closed in its line stays in the code (`ClosedBlockStays`), an opener inside a literal
  hides what follows (`LiteralOpensBlock`), and in a line that starts inside a template, text behind
  two slashes is dropped (`TemplateLinesAreLost`). It agrees with a reader who carries open literals
  too, on every line of a source, if and only if every line is clear (`SourceIff`). A line that starts
  outside of literals is clear when its last `/*`, if no `*/` follows it, is its first comment, and
  otherwise its first comment is not a block comment (`ClearOutside`); for one that starts inside,
  moreover, what looks like the first line comment from outside has to be the first comment.
- **Dates.** The years 0 to 99 are rejected, because `Date.UTC` stores them as 1900 to 1999.

## Assumptions

Tool-call and session ids are fresh, and only issued tokens verify, with the claims they were issued
with. The model, the tools, input schemas, the UTF-8 decoder, regular expressions and the stripping
of string literals in the remote-exec scan are parameters, so the theorems hold for all of them.

## Model

| member | source | states |
|---|---|---|
| SessionKey.ReadUndoesQuote | examples/agent-loop.ts:96 | reading a JSON string literal gives back the UTF-16 string, lone surrogates and escapes included, whatever follows |
| SessionKey.KeyOfInjective | examples/agent-loop.ts:95-96 | two equal keys come from the same owner and the same id |
| SessionKey.PlainKey | examples/agent-loop.ts:95-96 | the key of texts without escapes, written out |
| AgentSafety.StepKeepsInv | examples/agent-loop.ts:133-271 | every transition keeps the invariant: what stands in the log before a pause, a request, a decision and a run, whose session a task works on, and which calls a grant can still pay for |
| AgentSafety.RunKeepsInv | examples/agent-loop.ts:133-271 | the invariant holds after every run |
| AgentReference.HistoryIsTold | examples/agent-loop.ts:133-265 | after any run a session's history is what its events put into it, in order: the user's and the model's texts, tool outputs and failures, refusals and denials, each with its role and tool |
| AgentReference.RunsAreWatched | examples/agent-loop.ts:133-271 | the runs are the event lists the reference plays, and log, tokens, sessions and what they wait for are those that the events make |
| AgentReference.AnswersAreWatched | examples/agent-loop.ts:217-246 | after any run a request gets 404, 409 or 200 as the events before it say |
| AgentRuns.RiskyRunsAreApproved | examples/agent-loop.ts:167-180 | in any interleaving a risky run follows its pause, its approval request and its grant, in that order, for the same owner, session, tool and call id and with the recorded input; each grant pays for at most one run |
| AgentRuns.DeadTokensStayDead | examples/agent-loop.ts:245-258 | in any interleaving a token whose call is no longer pending, used or superseded, matches no decision request that starts later |
| AgentDecisions.DeadTokenAcceptedIffHeld | examples/agent-loop.ts:245-258 | such a token is accepted in some continuation if and only if a handler already holds its call |
| AgentDecisions.AcceptedIsPending | examples/agent-loop.ts:245-258 | in every run whose handlers are not interrupted, an accepted decision is for the call then pending, and its token is dead afterwards |
| AgentDecisions.DeadIsNeverAccepted | examples/agent-loop.ts:245-258 | in such runs a dead token is never accepted |
| AgentDecisions.UninterruptedIsSingleUse | examples/agent-loop.ts:242-270 | and then every call is decided once and runs once, and a denied call never runs |
| AgentLostCalls.LostIff | examples/agent-loop.ts:245-260 | some continuation keeps a pending call pending until a decision on another call clears it, if and only if a handler of its session already holds another call whose token is issued or being signed |
| AgentLostCalls.SupersedingCallIsLost | examples/agent-loop.ts:245-260 | a handler that holds a superseded call accepts its dead token and clears the newer call, whose own token, held by nobody, is then never accepted |
| AgentLostCalls.LostCallIsReachable | examples/agent-loop.ts:167-180 | such a state is reached by a run in which no two handlers hold one call |
| AgentRuns.SerialDecisionsAreSingleUse | examples/agent-loop.ts:242-270 | without overlapping decisions on a call: decided once, run once, and a denied call never runs |
| AgentSingleUse.DecidedOnceIff | examples/agent-loop.ts:242-260 | from a reachable state, all continuations without new overlaps decide each call at most once if and only if no call whose token is issued or being signed is held twice, or held although decided |
| AgentSingleUse.RunOnceIff | examples/agent-loop.ts:242-270 | and run each call at most once if and only if no call that can still run has a second way to, or has run |
| AgentRuns.OverlappingHandlersBothAccept | examples/agent-loop.ts:245-258 | from every reachable state in which two handlers hold one call with an issued token, both are accepted |
| AgentRuns.OverlapIsReachable | examples/agent-loop.ts:245-263 | there is a run in which an approved call runs twice |
| AgentRuns.UndisturbedDecision | examples/agent-loop.ts:242-258 | a decision with nothing in between is accepted exactly when the token names this owner, this session and the pending call; then the token is dead |
| AgentBudget.BudgetHolds | examples/agent-loop.ts:147-185 | in any interleaving, model calls are at most maxSteps, and history items at most maxSteps + 1, for each accepted message or decision |
| AgentBudget.StepWithinBudget | examples/agent-loop.ts:147-185 | every transition keeps: calls made plus calls still possible never exceed what accepted messages and decisions paid for |
| AgentOwners.LookupIsByPair | examples/agent-loop.ts:126-131 | after any run a key finds the session of exactly that owner and id |
| AgentOwners.OthersUntouched | examples/agent-loop.ts:126-145 | a session changes only in a transition of its own owner, and its history only grows at the end |
| AgentOwners.HistoryOnlyGrows | examples/agent-loop.ts:133-185 | over any run an earlier history is a prefix of a later one |
| AgentOwners.RunsOfOthersChangeNothing | examples/agent-loop.ts:125-131 | over any run of other owners' events a session stays what it was |
| AgentAlone.EachOwnerIsAlone | examples/agent-loop.ts:125-131 | in any interleaving an owner gets the replies, sessions and log entries of the run with only its own events |
| AgentAlone.OwnStep | examples/agent-loop.ts:125-131 | a transition of an owner is possible, answered the same and has the same effect in any state that agrees on that owner's sessions, tasks and tokens |
| AgentServer.AgentServer.CreateSession | examples/agent-loop.ts:193-198 | the map update is the protocol's creation; a new id keeps every task on the record of the map, an id in use replaces the record |
| AgentServer.AgentServer.RiskyRunsWereApproved | examples/agent-loop.ts:167-180 | the approval theorem, of the object's own log after any calls |
| AgentServer.AgentServer.SendMessage | examples/agent-loop.ts:216-223 | the message handler makes exactly the protocol's transition: 404, 409, or the message appended and a loop started |
| AgentServer.AgentServer.NextStep | examples/agent-loop.ts:148-150 | the head of the loop: a model call while steps are left, else the end |
| AgentServer.AgentServer.ModelReplied | examples/agent-loop.ts:151-182 | the loop body after the model's answer: text, refusal, pause or run |
| AgentServer.AgentServer.Signed | examples/agent-loop.ts:170-180 | the token binds owner, session and call, and the request is audited |
| AgentServer.AgentServer.ToolReturned | examples/agent-loop.ts:138-143 | output or failure is appended and the loop goes on |
| AgentServer.AgentServer.BeginDecision | examples/agent-loop.ts:243-249 | the decision handler up to its await: 404, 409, or a handler holding the pending call |
| AgentServer.AgentServer.FinishDecision | examples/agent-loop.ts:247-260 | accepted exactly when the verified claims match; then pending is cleared before anything runs |
| AgentServer.AgentServer.ResumeDecision | examples/agent-loop.ts:261-269 | an approved call runs as recorded, a denial is appended |
| AgentServer.AgentServer.DropTask | examples/agent-loop.ts:149-150 | a request that ends early leaves everything else as it is |
| JsonComments.StripJsonComments | scripts/verify-no-agent-config-autorun.ts:129-181 | the four-flag loop outputs the print of the tokens that are not comments, for every text |
| JsonComments.LexIsFaithful | scripts/verify-no-agent-config-autorun.ts:135-179 | every text is the print of its tokens, and these are well formed |
| JsonComments.LexUndoesPrint | scripts/verify-no-agent-config-autorun.ts:135-179 | a well-formed token list is read back from its print |
| JsonComments.RoundTrip | scripts/verify-no-agent-config-autorun.ts:138-179 | comments inserted anywhere the grammar allows are removed again, string tokens verbatim |
| JsonComments.Idempotent | scripts/verify-no-agent-config-autorun.ts:138-179 | stripping twice is stripping once, for every text, unterminated ones included |
| JsonComments.UnchangedIffNoComment | scripts/verify-no-agent-config-autorun.ts:138-179 | a text is left alone exactly when it has no comment |
| JsonComments.CodeIsWellFormed | scripts/verify-no-agent-config-autorun.ts:138-179 | removing comment tokens never glues a new comment together |
| JsonComments.StringIsKept | scripts/verify-no-agent-config-autorun.ts:152-167 | a text in double or single quotes is kept to its first bare closing quote, whatever stands in it |
| JsonComments.CharacterIsKept | scripts/verify-no-agent-config-autorun.ts:168-178 | outside of strings every character is kept that does not open a comment |
| JsonComments.LineCommentGoes | scripts/verify-no-agent-config-autorun.ts:138-144 | from two slashes to the line break, which stays |
| JsonComments.BlockCommentGoes | scripts/verify-no-agent-config-autorun.ts:145-151 | from slash and star to the first star and slash, or to the end |
| Shuffle.Shuffle | bench/serverless-cold-path.bench.ts:127-134 | the in-place loop leaves the array at the specified arrangement |
| Shuffle.ShuffledPermutes | bench/serverless-cold-path.bench.ts:127-134 | every list of draws gives a permutation |
| Shuffle.DrawsAreDetermined | bench/serverless-cold-path.bench.ts:127-134 | for distinct elements two lists of draws never give the same arrangement |
| Shuffle.EveryPermutationIsDrawn | bench/serverless-cold-path.bench.ts:127-134 | every permutation comes from some list of draws |
| Shuffle.ShuffleIsABijection | bench/serverless-cold-path.bench.ts:127-134 | an arrangement is a permutation exactly when it is drawn, and then by exactly one list |
| Calendar.ParseAcceptsRealDates | scripts/verify-governance-audits.ts:74-82 | for all integers: accepted exactly when the triple is a real Gregorian date outside the years 0 to 99 and in the range of Date, with its midnight as result |
| Calendar.FourDigitYears | scripts/verify-governance-audits.ts:102-107 | for the marker's four digits: a real date with year at least 100 |
| Calendar.DayOfDateIsRight | scripts/verify-governance-audits.ts:75-78 | civil date of day number of a date is the date |
| Calendar.DateOfDayIsRight | scripts/verify-governance-audits.ts:75-78 | every day number names a real date whose day number it is |
| Calendar.DayNumbersCountDays | scripts/verify-governance-audits.ts:75-77 | day numbers start at 1970-01-01 and the next day has the next number |
| Calendar.DayNumbersKeepOrder | scripts/verify-governance-audits.ts:115-118 | day numbers order dates as the calendar does |
| Calendar.AgeCountsCalendarDays | scripts/verify-governance-audits.ts:115-118 | at any time of day the age is n exactly on the n-th calendar day after the exercise, or before it for a negative age |
| Calendar.AuditLastExercise | scripts/verify-governance-audits.ts:102-187 | in dates: missing without an accepted marker, future when today is before the exercise, a warning from the 91st to the 180th calendar day after it and an error from the 181st |
| Calendar.TodayAt | scripts/verify-governance-audits.ts:115-118 | an instant, given by date, hour, minute, second and millisecond, falls on that date |
| Calendar.RangeOfDates | scripts/verify-governance-audits.ts:75-76 | the first and the last date that a Date can hold |
| WsFrames.WsFrame | red-team-live/run.ts:1561-1592 | the printer's bytes for any payload, mask and declared length, and the RangeError from 2^64 on |
| WsFrames.FrameReadBack | red-team-live/run.ts:1561-1592 | any printed frame, masked or not, with true or forged length and anything behind it, is read as exactly what it announces |
| WsFrames.ReadUndoesPrint | src/websocket.ts:1014-1097 | reading undoes printing exactly for frames the RFC and the limits accept; every other frame is an error |
| WsFrames.StreamReadBack | red-team-live/run.ts:1913-1916 | a concatenation of frames reads as the list of frames, then what follows |
| WsFrames.LengthFieldIsMinimal | red-team-live/run.ts:1570-1581 | no header that announces the same length is shorter |
| WsFrames.MaskTwice | red-team-live/run.ts:1582-1587 | masking with the same key twice is the identity |
| WsFrames.MaskIsExclusiveOr | src/websocket.ts:1090-1094 | byte i of masked data has exactly the bits in which the byte and key byte i mod 4 differ |
| WsFrames.XorIsUnique | src/websocket.ts:1090-1094 | and there is one such byte |
| WsFrames.CompleteMeans | src/websocket.ts:1018-1096 | what a frame that is read says, by the bits and bytes of section 5.2: FIN, opcode, length, key and unmasked payload |
| WsFrames.NotReadMeans | src/websocket.ts:1018-1087 | what is refused, too large or incomplete, in the order of the checks |
| WsFrames.MoreBytesChangeNothing | src/websocket.ts:1014-1097 | what the parser decides on some bytes it decides on every longer stream |
| WsFrames.CutFrameIsIncomplete | src/websocket.ts:1018-1087 | a frame cut short is incomplete, never a frame or an error |
| FrameSink.ParseFrame | src/websocket.ts:1014-1097 | the in-place parser returns that result; it unmasks exactly the payload and leaves every other byte, and everything when it returns no frame |
| FrameSink.Sink.Push | src/websocket.ts:1355-1389 | growing, compacting and in-place buffers do what the specification does on byte strings, callbacks included |
| FrameSink.Sink.Append | src/websocket.ts:1391-1407 | after doubling or compaction the unread input is the old input and the chunk; a new buffer has the larger of that size and twice the old one |
| FrameSink.Sink.HandleData | src/websocket.ts:1433-1480 | fragments accumulate and are delivered or rejected as specified |
| FrameSinkProtocol.ChunkingDoesNotMatterIff | src/websocket.ts:1355-1389 | all ways to cut a stream into non-empty chunks agree if and only if the stream has no well-coded close frame with a reason that is not UTF-8 and a whole frame or an error behind it; the same with empty chunks |
| FrameSinkProtocol.PushThrowsIff | src/websocket.ts:1355-1389 | one push of a stream throws exactly when such a close frame is in it |
| FrameSinkProtocol.CleanIsChunkFree | src/websocket.ts:1355-1389 | without such a frame every chunking agrees and nothing is thrown |
| FrameSinkProtocol.CaughtIsChunkFree | src/websocket.ts:1355-1389 | they agree whenever no error leaves push |
| FrameSinkProtocol.BadReasonLeavesInput | src/websocket.ts:1248-1262 | a close frame with a reason that is not UTF-8 throws out of push and leaves the next frame unread |
| FrameSinkProtocol.MessageHandled | src/websocket.ts:1416-1480 | fragments with control frames between them give those events and the whole message exactly when count, size and UTF-8 fit, and otherwise no message |
| FrameSinkProtocol.FragmentsArriveWhole | src/websocket.ts:1355-1480 | printed fragments with pings and pongs between them, in any chunks, deliver the whole message once, after those control frames |
| FrameSinkProtocol.CloseArrives | src/websocket.ts:1248-1261 | a close frame in any chunks shuts the sink and delivers what its payload says: 1005 for none, a violation for one byte or a code that may not be sent, else code and reason |
| FrameSinkProtocol.CodeAndReasonArrive | src/websocket.ts:1252-1260 | the code is the first two bytes, high byte first, and the reason the decoded rest |
| FrameSinkProtocol.DataFrameErrors | src/websocket.ts:1433-1479 | which error a data frame is: out of turn, too many frames, too many bytes, not UTF-8 |
| Multipart.Mp | red-team-live/run.ts:1934-1950 | the chunk loop prints the specified body |
| Multipart.OnePartPrinted | red-team-live/run.ts:1938-1949 | the lines of a printed part |
| Multipart.HeadersPrinted | red-team-live/run.ts:1941 | the headers, written out |
| Multipart.ReadUndoesPrint | red-team-live/run.ts:1934-1950 | the parser recovers exactly the parts if and only if no data holds a delimiter or begins like one |
| Multipart.FirstDelimiter | red-team-live/run.ts:1939-1947 | the first delimiter behind a part's headers is the printed one, unless the data has one earlier |
| Multipart.NoSelfOverlap | red-team-live/run.ts:1939-1947 | a delimiter cannot overlap itself |
| Multipart.DashesAreLost | red-team-live/run.ts:1941-1945 | an input whose data only begins like a delimiter and is lost |
| Alternation.AlternationIsAmbiguous | scripts/verify-no-redos-patterns.ts:153-168 | true exactly when two different non-empty alternatives overlap at the front |
| Alternation.AmbiguousIffTwoChoices | scripts/verify-no-redos-patterns.ts:153-168 | that is, when some text lets the engine choose between two alternatives |
| Alternation.ParsesAgree | scripts/verify-no-redos-patterns.ts:153-168 | without ambiguity the parse of a prefix is a prefix of every parse |
| Alternation.UnflaggedParsesUniquely | scripts/verify-no-redos-patterns.ts:153-168 | a group that is not flagged parses every text in at most one way |
| Alternation.ParsesTwiceIffClosable | scripts/verify-no-redos-patterns.ts:153-168 | a repeated group parses some text in two ways if and only if a chain of dangling suffixes of its alternatives reaches the empty text |
| Alternation.ParsesTwiceIffShortChain | scripts/verify-no-redos-patterns.ts:153-168 | chains of distinct suffixes of alternatives, fewer than there are suffixes, are enough |
| Alternation.EqualAlternativesParseTwice | scripts/verify-no-redos-patterns.ts:163 | two equal alternatives, which the test flags, do parse a text in two ways |
| Alternation.FlaggedMayStillBeUnique | scripts/verify-no-redos-patterns.ts:153-168 | the converse fails for `a\|ab` |
| RemoteExec.FindLineCommentStart | scripts/verify-no-remote-exec.ts:137-174 | the first unescaped pair of slashes outside of literals, or none |
| RemoteExec.LiteralHidesSlashes | scripts/verify-no-remote-exec.ts:130-174 | whatever stands in a literal, nothing up to its closing quote is a comment |
| RemoteExec.LinesAreTheText | scripts/verify-no-remote-exec.ts:195 | the lines hold no line feed and with the dropped line ends they are the text |
| RemoteExec.ScanLines | scripts/verify-no-remote-exec.ts:196-241 | phases 1 and 2: each line as the scanner cuts it, in place, and one finding for each line with a verdict |
| LineComments.SourceIff | scripts/verify-no-remote-exec.ts:197-217 | the scanner keeps of every line of a source what a reader of literals and comments keeps, who carries both from line to line, if and only if every line is clear |
| LineComments.StripLineIff | scripts/verify-no-remote-exec.ts:200-217 | the same for one line, whether it starts in code, in a literal or in a block comment |
| LineComments.ClearOutside | scripts/verify-no-remote-exec.ts:207-212 | outside of literals the condition is about the last block opener and the first comment only |
| LineComments.LiteralOpensBlock | scripts/verify-no-remote-exec.ts:207-212 | an opener inside a literal hides the rest of the line and opens a block comment |
| LineComments.TemplateLinesAreLost | scripts/verify-no-remote-exec.ts:197-217 | of a template line that begins with two slashes, all literal text, the scanner keeps nothing |
| LineComments.CommentInLineStays | scripts/verify-no-remote-exec.ts:207-217 | `a /* x */ b` is kept whole |
| LineComments.ClosedBlockStays | scripts/verify-no-remote-exec.ts:207-217 | a block comment outside of literals that is first in its line and closed there is kept as far as its closing star, unless a line comment is seen in it |
| RemoteExec.LineAt | scripts/verify-no-remote-exec.ts:253-262 | the binary search gives the last line that starts at or before the offset |
| RemoteExec.OffsetIsOnItsLine | scripts/verify-no-remote-exec.ts:247-262 | an offset lies in the segment of that line, with its character, and of no other |
| RemoteExec.RescanOne | scripts/verify-no-remote-exec.ts:263-273 | the rescan ends, on empty matches too, and marks the line of every match it stops at |
| RemoteExec.FindForbiddenRemoteExecCalls | scripts/verify-no-remote-exec.ts:190-276 | three passes, the set of flagged lines and the sort give one finding for each line to blame, by line |
| RemoteExec.MarkAllAt | scripts/verify-no-remote-exec.ts:263-273 | a line keeps its first reason, else gets that of the first pattern with a match starting there |
| RemoteExec.ReportedOnce | scripts/verify-no-remote-exec.ts:246-275 | line numbers strictly increase, and a line is reported exactly when there is a reason |
| RemoteExec.LeftmostMatchIsReported | scripts/verify-no-remote-exec.ts:263-273 | if an import pattern matches anywhere in the joined text, the line of its leftmost match is reported |
| RemoteReports.ImportIsReported | scripts/verify-no-remote-exec.ts:221-230 | a line whose searched text an import pattern matches is reported with the reason of the first such pattern |
| RemoteReports.CodeGenIsReported | scripts/verify-no-remote-exec.ts:232-240 | otherwise a line that a code-generation pattern matches without its literals is reported with the reason of the first such pattern |
| RemoteReports.EveryMatchIsCovered | scripts/verify-no-remote-exec.ts:263-273 | wherever an import pattern matches in the joined text, that match or an earlier one overlapping it starts on a reported line |
| RemoteReports.FindingsAreFounded | scripts/verify-no-remote-exec.ts:221-274 | every finding has its line's text and the reason of a pattern with a match on that line |
| RemoteExec.SortedIsReport | scripts/verify-no-remote-exec.ts:274 | the sort of the findings is the report by line |
| Licenses.Monotone | scripts/verify-dep-licenses.ts:117-137 | a larger allow-list never rejects what a smaller one accepts, for every text, nested parentheses included; the evaluator ends on every text, its length being the measure |
| Licenses.FlatIsTree | scripts/verify-dep-licenses.ts:117-137 | on flat expressions, any spacing and letter case of the connectives, it computes the tree semantics with AND binding tighter |
| Licenses.FlatInParensIsTree | scripts/verify-dep-licenses.ts:124-125 | so it does inside one pair of parentheses |
| Licenses.OrSplit | scripts/verify-dep-licenses.ts:127-129 | splitting the text at OR gives the branches of the tree |
| Licenses.AndSplit | scripts/verify-dep-licenses.ts:131-133 | splitting an AND-chain gives its ids |
| Licenses.Connectives | scripts/verify-dep-licenses.ts:127-132 | the connectives in any letter case, written out |
| Licenses.PlusIsDropped | scripts/verify-dep-licenses.ts:135-136 | an id with one plus sign behind it counts as the id |
| Licenses.NeverAllowed | scripts/verify-dep-licenses.ts:121-122 | nothing, NOASSERTION and UNLICENSED are rejected whatever is allowed |
| Licenses.SeeLicenseIsNotAllowed | scripts/verify-dep-licenses.ts:123 | so is a text that starts with SEE LICENSE, in any case |
| LicenseLists.ExtractLicenseString | scripts/verify-dep-licenses.ts:91-111 | which field is used, what is skipped, and how a list is joined |
| LicenseLists.NameIsTrimmed | scripts/verify-dep-licenses.ts:93-97 | a name in a string or in an object's `type` is used without the spaces around it |
| LicenseLists.EntriesCount | scripts/verify-dep-licenses.ts:101-107 | in a list an object counts as its `type`, and a nameless entry not at all |
| LicenseLists.ListIsJoined | scripts/verify-dep-licenses.ts:98-110 | the names of a list are joined in parentheses, and without any the result is NOASSERTION |
| LicenseLists.JoinedExactly | scripts/verify-dep-licenses.ts:98-109 | exactly when the string of a legacy list of bare or parenthesised expressions is allowed |
| LicenseLists.JoinedLaw | scripts/verify-dep-licenses.ts:98-109 | for bare entries it is allowed exactly when some entry is |
| LicenseLists.AloneIsLost | scripts/verify-dep-licenses.ts:108-126 | a parenthesised entry alone in the list, with at most two branches, is never allowed |
| LicenseLists.ParenthesesAreLost | scripts/verify-dep-licenses.ts:108-126 | the concrete case of `(MIT OR ISC)` |
| BoundedBody.ReadResponseBodyUpTo | src/internal-body.ts:12-43 | all bytes exactly when they fit the limit, null at the first read that passes it, errors passed on, whatever the chunking |
| BoundedBody.ReadChunks | src/internal-body.ts:20-31 | the read loop keeps at most maxBytes bytes, all of them when it ends by itself, and stops at the first read that passes the limit |
| BoundedBody.Concatenate | src/internal-body.ts:36-42 | the copy loop joins the chunks |
| InvisibleUnicode.ScanFileForInvisibleUnicode | scripts/verify-no-invisible-unicode.ts:167-212 | one finding for each forbidden position and no other, in strictly increasing (line, column) order |
| InvisibleUnicode.ReportsUnique | scripts/verify-no-invisible-unicode.ts:167-212 | the text determines that report |
| InvisibleUnicode.OneReason | scripts/verify-no-invisible-unicode.ts:85-118 | the forbidden classes are disjoint |
| InvisibleUnicode.PairNamesPosition | scripts/verify-no-invisible-unicode.ts:167-212 | a (line, column) pair names one code point |
| InvisibleUnicode.LineCountsBreaks | scripts/verify-no-invisible-unicode.ts:167-212 | the line is one more than the number of line feeds in front |
| InvisibleUnicode.ColumnCountsFromBreak | scripts/verify-no-invisible-unicode.ts:167-212 | the column counts from the last line feed |
| InvisibleUnicode.ForbiddenMeans | scripts/verify-no-invisible-unicode.ts:85-118 | the forbidden code points and their classes, written out |
| Tenants.EachTenantIsAlone | examples/multitenancy-demo.ts:90-118 | in any interleaving a tenant gets the responses of the run with only its own requests |
| Tenants.IdsNeverRepeat | examples/multitenancy-demo.ts:111-112 | no two orders of a tenant have one id |
| Tenants.RunsNumberOrders | examples/multitenancy-demo.ts:111-112 | the k-th order of a tenant is `ord-k` |
| Tenants.OrdersAreKept | examples/multitenancy-demo.ts:55-60 | over any run earlier orders stay, unchanged and in place |
| Tenants.ListingIsComplete | examples/multitenancy-demo.ts:90-93 | a listing is exactly the orders handed out to the tenant so far |
| Tenants.RowsAreAsked | examples/multitenancy-demo.ts:109-118 | after any run the k-th order of a tenant is `ord-k` with the item and total it asked for, a listing gives those orders, and a new one is next |
| Tenants.DecimalReadsBack | examples/multitenancy-demo.ts:112 | the number in an id is printed in decimal digits without a leading zero |
| Tenants.OrderStore.OrdersFor | examples/multitenancy-demo.ts:55-60 | the tenant's own array, stored on first use |
| Tenants.OrderStore.CreateOrder | examples/multitenancy-demo.ts:109-118 | the pushed order is the one returned, and no other tenant's array changes |

## Left out

- Expiry of approval tokens, their cryptography, the authentication hook and the rate limit of the agent app: a token verifies or it does not.
- The server-sent events of a loop, which repeat what goes to history and log.
- Cancellation is modelled as dropping a task at any suspension point, never as the abort signal itself; a tool name that an object inherits from its prototype would make the loop throw and counts as such a drop.
- A `maxSteps` that is negative or not a whole number; an output that `JSON.stringify` cannot print.
- AgentServer.AgentServer.CreateSession: when an id repeats, tasks that hold the replaced record are not followed further.
- Callbacks of `FrameSink` that call `push` again or throw; `encodeFrame`, whose frames have the shape that `WsFrames.FrameReadBack` covers.
- FrameSink.Sink.Push: the zero-length array that the source shares between empty buffers is a new one each time here.
- Multipart.ReadUndoesPrint: header strings are taken as already encoded octets, and the reader treats a backslash in a quoted value as itself, as form readers do.
- Nested parentheses in license expressions, spaces inside the parentheses of a legacy list entry, and the real allow-list, of which only the form of its names is used.
- LineComments.SourceIff: the reader takes a backslash with the next character everywhere and does not parse regex literals, `${...}` inside templates, HTML-like comments or line ends other than LF and CRLF; a quoted literal that is not closed or continued ends with its line.
- The real tables of patterns and how their regular expressions match; the file walkers, reports and exit codes around the scanners.
- The contact-list part of the security-contacts audit, and how the marker is found in the file.
- Astral code points are one item in the invisible-character scan; elsewhere a JavaScript string is a sequence of characters and no pairing of surrogates matters.
- Tenants.OrderStore.ListOrders: the response holds the array itself, as in the source; that it is printed before the next request changes it is not modelled. Tenant resolution, the rate limit and body validation come before the model.
- BoundedBody.ReadResponseBodyUpTo: cancelling the reader and releasing its lock have no effect here.
- Router, jobs, cache, scheduler, JWT library and the probe campaigns are not part of this model.
