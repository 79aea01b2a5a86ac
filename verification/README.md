# Robine Flow, its journal, and its dispatchers: a verified model

Robine runs small automation programs, *flows*, against the devices of a home. This project models
the parts of it whose correctness is not visible in any one function, and proves what they promise.

- **Front end.** The lexer, the parser and the printer of flow source text (`Lexer`, `Parser`,
  `Printer`, `FlowAst`), with string escapes as in section 7 of RFC 8259 without surrogate pairs. The
  main result is that printing and parsing undo each other (`RoundTrip`). What a text denotes is stated
  apart from the scanners (`Lexemes`, `Grammar`, `Decimals`), as is how a rendering looks (`PrintLayout`).
- **Guards, choices and compilation.** Guards over a snapshot of the home (`Guards`), the rewriting
  that freezes `choose` (`Choose`), the compiler (`FlowCompiler`), and a direct interpreter of the tree
  of choices. Freezing and then compiling gives what the direct interpreter gives (`ChooseMeaning`), and
  compiled plans stay within their bounds (`PlanValidity`). When a guard is true is said without its evaluation
  (`GuardTruth`). A flow compiles to what it says part by part (`FlowMeaning`, `FlowReading`), and every plan
  within the bounds has a source (`FlowSource`). `FlowExecution` goes from a stored flow to its execution.
- **Durable interpreter.** The segment interpreter (`FlowRuntime`), proved equal to a single pass that
  never suspends (`Transparency`), what it waits for (`Suspension`), what its trace tells (`Traces`), and the calls
  it makes, with their idempotency keys (`CallDiscipline`, `IdempotencyKeys`).
- **Scheduler.** The run table (`RunTable`), the service that admits, resumes, queues and ends runs
  (`FlowService`), a state machine of its handlers (`Engine`), and properties of every run of it
  (`EngineRuns`, `EngineStarts`, `EngineWaits`, `EngineKeys`). `CrashReplay` adds what a crash inside a segment does.
- **Store.** The tables and the event journal (`Journal`, `Store`): every write keeps the tables equal
  to the replay of the whole journal. Consequences are in `JournalLaws`, `ReportedStates` and `CommandChanges`. The claims
  under which events trigger flows are in `CausalClaims`, and what they bound in `Cascades`.
- **Commands.** The use case that creates and dispatches commands (`HomeService`), and the same steps
  taken by any number of threads with crashes between them (`CommandDispatch`).
- **Consumers of the journal.** The hand-over from replay to live events of a WebSocket subscriber
  (`EventStream`, `StreamPromises`, `StreamProgress`), and the engine that runs flows on events (`AutomationEngine`,
  `EngineReplay`, `EngineCoverage`), both over the feed described in `EventFeed`.
- **Hue dispatcher.** The rate gate (`HueGate`), the threads that coalesce commands (`HueCoalescing`), what
  they return (`HueOutcomes`), and the order in which the bridge sees their values (`BridgeOrder`).
- **Canonical JSON.** The text an approval is bound to (`CanonicalJson`, `CanonicalInjective`, `CanonicalText`).

Code that updates state in place is modelled by classes and loops, each method proved against a
specification function; the laws are lemmas about those functions. Concurrent code is modelled by the
steps its threads take between locks, and the laws hold for every sequence of steps; `Reachability` says once
what such a sequence leads to and what it keeps.

## What turned out to need a condition

Each of these is stated as an equivalence, most of them with a run on the failing side.

- **Cascades.** A flow that reacts to the events of its own commands is bounded by its cause as long as none of
  them is a confirmation by a report, which carries no cause and is then a new one:
  `Cascades.LinkedRunsShareCauseIff`, `Cascades.CascadeIsBounded`, `Cascades.ConfirmationsNeverEnd`.
  A run triggered by a reported state makes no claim at all.
- **The automation engine** handles every event exactly once when it never takes from the broadcast an event
  with a gap before it. Publication in the order of the journal is enough, and nothing in the store enforces
  it; but late events that a replay covers do no harm: `AutomationEngine.HandledExactlyOnceIff`,
  `AutomationEngine.HandledAtLeastOnceIff`.
- **The live stream** is in the order of the journal when each wanted event the producer takes is the next
  wanted one: `StreamPromises.SentIsPrefixIff`. In any order, none is sent twice and none is passed over.
- **Cursors.** A purge between the check of a cursor and the replay can leave a gap after it:
  `StreamPromises.CursorIsResumedIff`. The check alone says nothing once every row is purged:
  `EventStream.OutsideIffLaterEventPurged`; the two checks together do: `EventStream.AcceptedIffNothingMissing`.
- **Expiry** looks at the first hundred rows of a table that never shrinks, so the hundred-and-first command
  and all after it never expire: `CommandDispatch.CanExpireIffEarlyRow`.
- **Dispatch at most once** is not at least once: a command whose thread is lost before its dispatch is never
  sent, and its key answers every retry: `CommandDispatch.CanBeSentIffNotAbandoned`.
- **A crash inside a segment** is repaired by running the segment again, unless it follows a refusal that left a
  row: the retry is then told that the command was accepted. `CrashReplay.CrashIsRepairedIff`.
- **The Hue bridge** sees an older value after the newest exactly when the older dispatch had passed its second
  check and not called yet: `BridgeOrder.OlderCallsLaterIffCleared`.
- **Limits of a hundred rows** per tick and per event leave runs out exactly when that many others come before
  them: `FlowService.EventResumesAllIff`, `FlowService.TickLeavesRunIff`.
- **Printing.** A syntax tree that was not parsed from text survives printing and parsing exactly when its atoms
  could have been lexed: `RoundTrip.PrintParse`.

## Model

| member | source | states |
|---|---|---|
| FlowRuntime.ExecuteFromResumption | crates/robine-flow-runtime/src/lib.rs:136-307 | the loop over the actions returns the result and leaves the gateway calls of the segment that `Segment` specifies, from any resumption point and for any replies |
| FlowRuntime.ExecuteRetryableAction | crates/robine-flow-runtime/src/lib.rs:309-366 | one attempt makes the calls of its action under the keys of that attempt, stops at the first refusal, and is traced only when it succeeds |
| Suspension.SegmentSuspends | crates/robine-flow-runtime/src/lib.rs:191-299 | a segment that suspends does so at an action of its plan and for what that action says: a wait for its time; an await for its trigger and timeout; a reported command for the confirmation of the command its switch call was accepted as, whose absence is a failure; a retry for its backoff behind a refused attempt |
| Traces.AttemptIsWritten | crates/robine-flow-runtime/src/lib.rs:148-366 | an attempt makes the calls written for its action one by one up to the first refused; it succeeds, and is traced, exactly when the action can be carried out and none is refused; a command is known by the id of its switch call |
| Traces.FailureIsNamed | crates/robine-flow-runtime/src/lib.rs:156-234 | a failed attempt outside a retry is traced by the call it came to |
| Traces.PassIsTold | crates/robine-flow-runtime/src/lib.rs:144-306 | the trace of a pass is its actions in plan order, each as it went, a retry with every attempt after the first announced and given up only behind its last; it ends at the first action that failed |
| Transparency.StepFollowsAction | crates/robine-flow-runtime/src/lib.rs:144-306 | one action either goes on as in the uninterrupted pass, or stops at a point from which that pass continues with fewer suspensions ahead |
| Transparency.SegmentFollowsOnePass | crates/robine-flow-runtime/src/lib.rs:136-307 | a segment ends the run as the uninterrupted pass ends it, or suspends at a point from which the pass goes on to the same end, with strictly fewer suspensions left |
| Transparency.ChainIsOnePass | crates/robine-flow-runtime/src/lib.rs:98-307 | all segments of a run together make the calls, with the keys, and leave the result and trace of one pass that never suspends, in a bounded number of segments |
| Transparency.RunToEnd | crates/robine-application/src/lib.rs:702-764 | resuming a plan until it ends terminates and does what one pass over it does |
| Transparency.OnePassExtends | crates/robine-flow-runtime/src/lib.rs:136-307 | a pass only adds to the calls made before it, so a run cut short made a first part of the calls of the whole run |
| IdempotencyKeys.KeyInjective | crates/robine-flow-runtime/src/lib.rs:162-184 | two keys are equal only for the same run, action, attempt and kind of call |
| IdempotencyKeys.KeyText | crates/robine-flow-runtime/src/lib.rs:162-357 | how a key reads, for each kind of call, inside and outside a retry |
| CallDiscipline.RunUsesKeysOnce | crates/robine-flow-runtime/src/lib.rs:162-357 | no key is issued twice within a run, and every key is one of an action of the plan and an attempt within its bound, whatever the replies |
| CallDiscipline.RunsUseDifferentKeys | crates/robine-flow-runtime/src/lib.rs:218-357 | two runs never share a key |
| CallDiscipline.AcceptedRunIsThePlan | crates/robine-flow-runtime/src/lib.rs:148-307 | when nothing is refused, the calls of any plan are those written in it, in order, up to the first action with an unknown verb, and the run completes exactly when there is none |
| FlowAst.ValidateRoot | crates/robine-flow-ast/src/lib.rs:72-110 | the scan of the sections reports the first error, in the order the source finds it |
| FlowAst.CheckRootMeaning | crates/robine-flow-ast/src/lib.rs:68-110 | a root is accepted exactly when it is a `flow` list of known sections in order with a trigger and a body |
| Grammar.RootIsValidIff | crates/robine-flow-ast/src/lib.rs:68-110 | a root is accepted exactly when it is `flow` followed by some of meta, inputs, on, when, do in this order, with on and do among them |
| Grammar.FirstFaultIsReported | crates/robine-flow-ast/src/lib.rs:72-110 | a root is refused for the first of its sections that is wrong, and for what is wrong with it, or for the section that is missing |
| Lexer.Lex | crates/robine-flow-syntax/src/lib.rs:76-149 | the scan of the source yields the tokens the recursive definition gives, or its first error |
| Lexer.ReadEscape | crates/robine-flow-syntax/src/lib.rs:160-221 | one escape is decoded as section 7 of RFC 8259 says, without surrogates, or refused |
| Lexer.ReadString | crates/robine-flow-syntax/src/lib.rs:151-236 | a literal is read up to its closing quote with every escape decoded, or refused as the definition says |
| Lexer.ReadToken | crates/robine-flow-syntax/src/lib.rs:91-146 | one delimiter, string or atom is read and the scan goes on behind it |
| Lexer.EndOfAtom | crates/robine-flow-syntax/src/lib.rs:130-145 | an atom ends before the first separator |
| Lexer.EndOfComment | crates/robine-flow-syntax/src/lib.rs:83-90 | a comment ends at the end of its line |
| Lexemes.WhitespaceIff | crates/robine-flow-syntax/src/lib.rs:79-82 | the blanks are the 25 code points with the property White_Space |
| Lexemes.LiteralIsReadIff | crates/robine-flow-syntax/src/lib.rs:151-236 | a string literal is read exactly when it is a row of plain characters, short escapes and unicode escapes up to a quote, as the characters they stand for |
| Lexemes.LiteralIsUnterminatedIff | crates/robine-flow-syntax/src/lib.rs:151-236 | it is unterminated exactly when the text ends behind such a row, or behind a backslash; any other is refused for an escape |
| Lexemes.TokensAreReadIff | crates/robine-flow-syntax/src/lib.rs:76-149 | a text lexes to some tokens exactly when it is made of pieces that are those tokens, with blanks and remarks between them |
| Parser.FormParser.Form | crates/robine-flow-syntax/src/lib.rs:243-299 | the parser that advances an offset reads exactly the form, and consumes exactly the tokens, that the grammar assigns to the tokens left |
| Parser.Parse | crates/robine-flow-syntax/src/lib.rs:19-40 | source text gives a validated flow, or the first error of lexing, parsing, trailing tokens or the root check |
| Decimals.AtomIsNumberIff | crates/robine-flow-syntax/src/lib.rs:311-327 | a word is a number exactly when it is a decimal literal followed by a unit that starts otherwise, or by nothing; it then has exactly that literal and unit |
| Decimals.ParsedNumbersAreDecimal | crates/robine-flow-syntax/src/lib.rs:301-327 | every number of a parsed flow has a decimal literal, and no unit or one that could not have continued the literal |
| Grammar.AtomKinds | crates/robine-flow-syntax/src/lib.rs:301-309 | which words are truth values, nil, keywords, numbers and symbols |
| Grammar.FormIsReadAsItBalances | crates/robine-flow-syntax/src/lib.rs:243-299 | a form is read exactly as far as its delimiters balance, matched against a stack, and refused for the first that does not |
| Grammar.FormIsItsTokens | crates/robine-flow-syntax/src/lib.rs:243-299 | the tokens a form was read from are its own, brackets counting as parentheses |
| Grammar.SourceIsFlowIff | crates/robine-flow-syntax/src/lib.rs:19-40 | a source text is a flow exactly when it is laid out as the tokens of one form that is a root |
| Printer.FormatForm | crates/robine-flow-syntax/src/lib.rs:329-382 | rendering appends the text of the form at its indentation to the output |
| Printer.FormatRest | crates/robine-flow-syntax/src/lib.rs:345-382 | the loop over the remaining forms separates them by spaces or by indented lines |
| Printer.FormatString | crates/robine-flow-syntax/src/lib.rs:332-336 | a string is appended between quotes with its special characters escaped |
| Printer.FormatFlow | crates/robine-flow-syntax/src/lib.rs:42-48 | a valid flow is rendered with a final newline, an invalid one is refused |
| PrintLayout.EscapesAreMinimal | crates/robine-flow-syntax/src/lib.rs:356-371 | which characters are escaped, which of them briefly, and with which digits the others |
| PrintLayout.LinesAreIndented | crates/robine-flow-syntax/src/lib.rs:329-348 | a form is rendered on one line exactly when it is an atom, a list of atoms or a list of one such form; every further line is indented by at least two more than the form |
| RoundTrip.LexedTokensAreValid | crates/robine-flow-syntax/src/lib.rs:76-149 | every atom the lexer produces could be lexed again alone |
| RoundTrip.AtomReadsBack | crates/robine-flow-syntax/src/lib.rs:301-327 | the text of an atom, number with unit included, is classified as that atom again |
| RoundTrip.EscapedTextReads | crates/robine-flow-syntax/src/lib.rs:151-236 | an escaped string is read back to itself, whatever follows its closing quote |
| RoundTrip.PrintLexes | crates/robine-flow-syntax/src/lib.rs:329-382 | the rendering of a form at any indentation lexes to the tokens of that form |
| RoundTrip.TokensParse | crates/robine-flow-syntax/src/lib.rs:243-299 | the tokens of a form parse to that form and leave what follows |
| RoundTrip.PrintParse | crates/robine-flow-syntax/src/lib.rs:19-48 | a valid flow survives printing and parsing exactly when its atoms are canonical |
| RoundTrip.ParsePrintParse | crates/robine-flow-syntax/src/lib.rs:19-48 | whatever parses can be printed, parses back to the same flow, and prints to the same text again |
| RoundTrip.RenderingIsInjective | crates/robine-flow-syntax/src/lib.rs:42-48 | two sources have the same rendering exactly when they denote the same flow |
| Guards.ValidGuardNeverFails | crates/robine-application/src/lib.rs:1707-1770 | validation accepts a guard exactly when evaluating it cannot fail and its properties are named |
| GuardTruth.GuardIsValidIff | crates/robine-application/src/lib.rs:1707-1770 | validation accepts exactly the guards made of the boolean forms over comparisons and presence of values, each with as many parts as it takes, a value being a truth value, a text, a percentage or a named state of an entity |
| GuardTruth.EvaluationIsTruth | crates/robine-application/src/lib.rs:1255-1316 | an evaluation that does not fail finds whether the guard is true: comparisons of values that are both present, quantifiers over conditions, negation and presence, said without the evaluation |
| GuardTruth.GuardMeansHolds | crates/robine-application/src/lib.rs:1234-1400 | a valid guard evaluates to true on exactly the snapshots on which it is true, and to false on all others |
| Guards.OppositeIsNegationIffComparable | crates/robine-application/src/lib.rs:1255-1316 | the opposite of a comparison means its negation exactly when both values are present and, for an order, percentages; otherwise both are false |
| Choose.ResolveActions | crates/robine-application/src/lib.rs:1556-1609 | the rewriting loop freezes every choice of a body, nested ones included, to the audit note and the actions of the selected branch |
| Choose.Resolve | crates/robine-application/src/lib.rs:1609-1625 | only the `do` sections are rewritten and the result is checked as a flow again |
| ChooseMeaning.ResolvedSequenceMeaning | crates/robine-application/src/lib.rs:1556-1609 | compiling the frozen actions gives what the tree of choices denotes, the first branch where the condition is true and the second where it is not, error for error |
| ChooseMeaning.ResolvedIsFrozen | crates/robine-application/src/lib.rs:1556-1609 | no `choose` is left in action position |
| ChooseMeaning.ChooseKeepsMeaning | crates/robine-application/src/lib.rs:1513-1625 | an accepted flow resolves on every snapshot to a valid flow without choices, which compiles exactly when the tree of choices has a meaning, to that meaning, under the policy of the original |
| ChooseMeaning.ResolvedFlowIsFixed | crates/robine-application/src/lib.rs:1556-1625 | resolving a frozen flow again, on any later snapshot, changes nothing |
| ChooseMeaning.AcceptedIffAllAreChoices | crates/robine-application/src/lib.rs:1513-1554 | a form is accepted exactly when every `choose` in it, at any depth, has a valid condition and one or two `do` blocks |
| FlowCompiler.DurationIsExact | crates/robine-flow-plan/src/lib.rs:450-469 | a literal and its unit are accepted as so many milliseconds exactly when their product is that whole number and lies within the bounds |
| Decimals.LiteralHasValue | crates/robine-flow-plan/src/lib.rs:450-462 | the literal of a sign, digits and decimals is decimal and denotes their positional value |
| Decimals.DecimalHasParts | crates/robine-flow-syntax/src/lib.rs:311-321 | a text is a decimal literal exactly when it has such parts |
| Decimals.U8IsPositionalIff | crates/robine-flow-plan/src/lib.rs:164-175 | a small number is read exactly from a row of digits of that value, after a plus sign or none |
| Decimals.UnitsAgree | crates/robine-flow-plan/src/lib.rs:450-469 | a thousand milliseconds are a second, and so on up to days; whole durations are accepted from one millisecond to thirty days |
| FlowCompiler.ScanOptions | crates/robine-flow-plan/src/lib.rs:471-541 | the scan of the options of a command in pairs reads them as specified, refusing repeated, unknown and inconsistent ones |
| FlowMeaning.ActionIsReadIff | crates/robine-flow-plan/src/lib.rs:215-354 | a form compiles to an action exactly when it stands for it part by part: its head, its references, its trigger, its times and its options |
| FlowMeaning.TriggerIsReadIff | crates/robine-flow-plan/src/lib.rs:365-448 | a form compiles to a trigger exactly when it stands for it: the first type of an event, a change of state of an entity, or any of some triggers |
| FlowMeaning.PlanIsReadIff | crates/robine-flow-plan/src/lib.rs:111-213 | a flow compiles to a plan exactly when it is valid and says it: one action for each form of `do`, the policy of `meta`, a single run where it says nothing, and its bound on the runtime |
| FlowReading.OptionsAreReadIff | crates/robine-flow-plan/src/lib.rs:476-524 | the options of a command are read exactly when they are pairs of known keys, each given once, with usable values; each then says what is read of it, in any order |
| FlowReading.CommandIsCompiledIff | crates/robine-flow-plan/src/lib.rs:218-244 | a command form stands for a command exactly when it names the entity and verb and its options say the brightness and the confirmation, a timeout going with a reported one alone |
| FlowReading.StateOptionsAreReadIff | crates/robine-flow-plan/src/lib.rs:396-431 | an awaited change of state is read exactly from named properties and values, the last of each kind counting |
| FlowReading.EventTypeIsFirst | crates/robine-flow-plan/src/lib.rs:381-395 | the type of an event is the first text or symbol behind a `:type` |
| FlowReading.PolicyIsReadIff | crates/robine-flow-plan/src/lib.rs:138-181 | the policy of a flow is read exactly when every mode and number of runs it gives is one; the last of each counts, and other keys are passed over |
| FlowReading.MaxRuntimeIsReadIff | crates/robine-flow-plan/src/lib.rs:183-213 | the bound on the runtime is what the first pair that gives it says; a key without a value is refused |
| FlowReading.RefusalNamesTheAction | crates/robine-flow-plan/src/lib.rs:215-354 | an action is refused with an error that names it or what is wrong in it |
| FlowCompiler.CompileAction | crates/robine-flow-plan/src/lib.rs:215-354 | exactly the one action a form stands for is pushed, or the form is refused and nothing is pushed |
| FlowCompiler.Compile | crates/robine-flow-plan/src/lib.rs:111-136 | the plan holds the actions of the body in order with the runtime bound and the concurrency policy of `meta`, or the first error in the order of the source |
| FlowSource.ActionCompiles | crates/robine-flow-plan/src/lib.rs:215-354 | the form written for an action, with every trigger, confirmation and bound it can have, compiles to that action in all its fields |
| FlowSource.ActionIsWrittenIff | crates/robine-flow-plan/src/lib.rs:215-354 | the actions flows stand for are exactly the valid ones with decimal percentages |
| FlowSource.PlanCompiles | crates/robine-flow-plan/src/lib.rs:111-213 | the flow written for a plan, with its mode, its number of runs and its runtime bound, compiles to that plan |
| FlowSource.PlanIsWrittenIff | crates/robine-flow-plan/src/lib.rs:111-213 | the plans flows stand for are exactly the valid ones with decimal percentages |
| PlanValidity.CompiledPlanIsValid | crates/robine-flow-plan/src/lib.rs:111-469 | compiled plans respect every bound: brightness, durations, attempts, queue size, retryable actions, named triggers |
| PlanValidity.RetryIsNeverInvalid | crates/robine-flow-plan/src/lib.rs:307-363 | in a compiled plan the interpreter never meets a retry of an action that cannot be retried |
| PlanValidity.SuspensionBound | crates/robine-flow-plan/src/lib.rs:307-354 | a compiled plan suspends at most once per action and nine times per retry |
| PlanValidity.CompiledRunEnds | crates/robine-flow-runtime/src/lib.rs:144-306 | every run of a compiled plan completes or fails after at most nine suspensions per action |
| RunTable.RunStore.AdmitFlowRun | crates/robine-store-sqlite/src/lib.rs:1786-1849 | a run is refused, started, started in place of the existing ones, or queued, as the mode and the rows of its flow say, and the table changes accordingly |
| RunTable.RunEntersIff | crates/robine-store-sqlite/src/lib.rs:1786-1849 | a run enters the table exactly when the mode and the number of rows of its flow leave room, queued exactly behind others in queue mode; a restart removes those, and no other row changes |
| RunTable.RunStore.DequeueNextFlowRun | crates/robine-store-sqlite/src/lib.rs:1851-1896 | the run taken from the queue is the (wake time, id)-least among all queued runs of idle flows; none is taken exactly when each of those has a hundred queued rows before it |
| RunTable.SelectedIffFewAhead | crates/robine-store-sqlite/src/lib.rs:1898-1940 | a read with a limit contains a row exactly when fewer rows than the limit come before it |
| RunTable.RunStore.DueFlowRuns | crates/robine-store-sqlite/src/lib.rs:1898-1922 | the first due rows by wake time and id, at most the limit, earliest first |
| RunTable.RunStore.AwaitingFlowRuns | crates/robine-store-sqlite/src/lib.rs:1924-1940 | the first awaiting rows by id, at most the limit |
| StringOrder.BelowTotal | crates/robine-store-sqlite/src/lib.rs:1898-1922 | the order of ids that breaks ties of wake times is total, so that a least row exists |
| StringOrder.BelowIsLexicographic | crates/robine-store-sqlite/src/lib.rs:1898-1922 | an id comes before another exactly when it is a proper prefix of it or smaller where they first differ |
| FlowService.Service.ResumeRun | crates/robine-application/src/lib.rs:640-771 | one resumption, with its deadline, timeout and disabled checks, changes the table, the traces and the calls as the engine step says |
| FlowService.Service.RunSegment | crates/robine-application/src/lib.rs:702-771 | a segment either updates the row of its run with the resumption point and wake time, or deletes it, and saves the trace |
| FlowService.Service.ExecuteFlow | crates/robine-application/src/lib.rs:417-483 | a compiled execution whose guard fails is recorded as skipped; otherwise it is admitted, and started, queued or refused as the engine step says |
| FlowExecution.ConditionIsValidIff | crates/robine-application/src/lib.rs:1684-1706 | the condition of a flow is accepted exactly when a `when` section, if there is one, has a single condition, made of the boolean forms over comparisons and presence of values |
| FlowExecution.ExecuteFlow | crates/robine-application/src/lib.rs:388-483 | a stored flow is executed with the plan its tree of choices denotes on the snapshot, exactly if its condition is true on the later one; it fails, and then changes nothing, exactly when there is no such plan |
| FlowExecution.StoredConditionIsTruth | crates/robine-application/src/lib.rs:1234-1253 | the condition of a stored flow never fails to evaluate, and its evaluation is whether what stands under `when` is true |
| FlowService.Service.CancelRuns | crates/robine-application/src/lib.rs:432-483 | every run replaced by a restart gets a cancelled trace |
| FlowService.Service.ResumeDue | crates/robine-application/src/lib.rs:584-608 | a tick is a sequence of engine steps: the due runs in order, then queued runs of idle flows, until none of those read can start or a hundred were started |
| FlowService.Service.ResumeAwaiting | crates/robine-application/src/lib.rs:610-638 | an event resumes, in order, the matching ones among the first hundred awaiting runs |
| FlowService.EventResumesAllIff | crates/robine-application/src/lib.rs:610-638 | in every reachable state an event resumes every run whose trace ends awaiting it exactly when each has fewer than a hundred awaiting runs before it |
| FlowService.TickResumesAllIff | crates/robine-application/src/lib.rs:584-608 | every due run is resumed exactly when each has fewer than a hundred due runs before it |
| FlowService.TickLeavesRunIff | crates/robine-application/src/lib.rs:593-608 | a tick that started fewer than a hundred runs leaves one that could start exactly when one has a hundred queued rows before it |
| Engine.ResumeKeepsFits | crates/robine-application/src/lib.rs:640-771 | a resumption keeps the engine invariant: rows and traces agree, each row is a point of the uninterrupted pass, one active run per flow |
| Engine.AdmittedKeepsTable | crates/robine-store-sqlite/src/lib.rs:1786-1849 | admission keeps one active run per flow and the row bound, in every mode, whatever mode the rows were admitted under |
| Engine.ExecuteKeepsFits | crates/robine-application/src/lib.rs:388-483 | an execution keeps the engine invariant in every mode |
| Engine.DequeueKeepsFits | crates/robine-application/src/lib.rs:584-608 | starting a queued run keeps the engine invariant |
| EngineRuns.ReachableFits | crates/robine-runtime/src/main.rs:768-824 | the engine invariant holds after any sequence of handlers |
| EngineRuns.ConcurrencyHolds | crates/robine-store-sqlite/src/lib.rs:1786-1896 | in every reachable table a flow has at most one active run and at most 32 rows, across changes of its mode |
| EngineRuns.SingleFlowsHaveOneRow | crates/robine-store-sqlite/src/lib.rs:1786-1849 | a flow only ever executed in `single` or `restart` mode has at most one row |
| EngineRuns.NoExecutionIsLost | crates/robine-application/src/lib.rs:402-771 | a run has a row exactly while its last trace is suspended or queued; any other execution has exactly one terminal trace, its last |
| EngineRuns.EveryRowIsRecorded | crates/robine-application/src/lib.rs:402-483 | every row belongs to a recorded execution |
| EngineRuns.StepKeepsRecords | crates/robine-application/src/lib.rs:402-771 | records only grow, an ended execution is never touched again, and deadlines never change |
| EngineRuns.DeadlinesHold | crates/robine-application/src/lib.rs:647-754 | every row wakes by its deadline and no gateway call is made at or after it |
| EngineRuns.OverdueRunEnds | crates/robine-application/src/lib.rs:647-663 | an active run past its deadline is due, and whatever resumes it deletes it as timed out without another call |
| EngineWaits.RowWaitsAtItsAction | crates/robine-application/src/lib.rs:726-754 | in every reachable state an active row is suspended at an action of its plan, with the trigger, the failure flag, the next action and the attempt that this action and the replies to its calls give it |
| EngineWaits.RowAwaitsItsTrace | crates/robine-application/src/lib.rs:726-754 | the last step of the trace of an active row says what it awaits, and whether it does |
| EngineWaits.RowIsDueIff | crates/robine-application/src/lib.rs:825-839 | a run suspended at some time for a time is due exactly from the end of that time on, or from its deadline on; without a limit after 36500 days |
| EngineWaits.PauseIsKept | crates/robine-application/src/lib.rs:584-771 | a run calls a gateway again only when an event comes that it awaits, or when the timer resumes it at the end of its pause |
| EngineWaits.ResumptionEndsIff | crates/robine-application/src/lib.rs:647-701 | a resumption ends a run as timed out exactly when its deadline has come or the timer finds a command unconfirmed, as cancelled exactly when else its flow is disabled, noting which at the end of its trace, and else goes on behind the action or tries it again |
| EngineStarts.ExecutionBegins | crates/robine-application/src/lib.rs:388-483 | an execution is skipped exactly when its condition fails or its flow is crowded, queued exactly behind others in queue mode, and else starts at its first action or is cancelled; it is recorded with its time and with why it did not start, and a queued row is that of the execution |
| EngineStarts.OthersAtExecution | crates/robine-application/src/lib.rs:432-455 | a restart ends every execution of the flow as cancelled without a call; no other execution is touched |
| EngineRuns.EndedExecutionIsThePass | crates/robine-application/src/lib.rs:640-771 | however it was scheduled among other runs, an ended execution made the calls and left the trace of one uninterrupted pass, and one cut short made a first part of those calls |
| EngineKeys.NoKeyIsUsedTwice | crates/robine-flow-runtime/src/lib.rs:162-357 | over a whole run of the engine no two gateway calls carry the same key, within or across executions |
| CrashReplay.ReplayIsSameIff | crates/robine-application/src/lib.rs:702-764 | a segment run again after a crash among its calls does what it would have done without the crash exactly when no call made before was a command that was refused and left a row |
| CrashReplay.CrashIsRepairedIff | crates/robine-application/src/lib.rs:2032-2037 | the same in every reachable state of the engine, where the keys of a segment are known to differ |
| Store.SqliteStore.InsertEvent | crates/robine-store-sqlite/src/lib.rs:2438-2456 | an event gets the next sequence, which is never used again, and extends the journal |
| Store.SqliteStore.CreateArea | crates/robine-store-sqlite/src/lib.rs:1420-1448 | an area is added with its event unless the name is taken, compared without ASCII case; the tables stay the replay of the journal |
| Store.SqliteStore.UpsertAdapterHealth | crates/robine-store-sqlite/src/lib.rs:1649-1674 | the health of an adapter is replaced, with its event |
| Store.SqliteStore.CreateFlow | crates/robine-store-sqlite/src/lib.rs:1694-1713 | a flow is added with its event unless its id is taken |
| Store.SqliteStore.UpdateFlow | crates/robine-store-sqlite/src/lib.rs:1715-1740 | an existing flow is replaced, with its event; a missing one is an error that changes nothing |
| Store.SqliteStore.CreateCommand | crates/robine-store-sqlite/src/lib.rs:2173-2202 | a command is appended with its event unless its id or idempotency key is taken |
| Store.SqliteStore.FindCommandByIdempotency | crates/robine-store-sqlite/src/lib.rs:2204-2219 | the command with a key is found exactly when there is one |
| Store.SqliteStore.TransitionCommand | crates/robine-store-sqlite/src/lib.rs:2221-2262 | the status of that command alone is written, whatever it was, with the event of the new status and the correlation of the command |
| Store.SqliteStore.ApplyReportedState | crates/robine-store-sqlite/src/lib.rs:2087-2171 | an older report changes nothing; an accepted one replaces the property, confirms exactly the open commands that asked for that value, and appends the state event and one event per confirmation in row order, all at the time of the report and without a correlation |
| Store.SqliteStore.ExpireCommands | crates/robine-store-sqlite/src/lib.rs:2264-2314 | exactly the stale open commands among the first rows are expired, each with its event, at the time of the pass and with the correlation of the command |
| Store.SqliteStore.EventsAfter | crates/robine-store-sqlite/src/lib.rs:2316-2344 | the first rows above the cursor, at most the limit |
| Store.SqliteStore.EarliestEventSequence | crates/robine-store-sqlite/src/lib.rs:2346-2355 | the least sequence of the rows left, if any |
| Store.SqliteStore.LatestEventSequence | crates/robine-store-sqlite/src/lib.rs:2361-2370 | the greatest sequence of the rows left, or zero |
| Store.SqliteStore.PruneEvents | crates/robine-store-sqlite/src/lib.rs:464-510 | at most a batch of old event rows is deleted, oldest first; tables, journal and numbering are untouched; a batch size outside 1 to 10000 is refused |
| CommandChanges.ReportConfirmsIff | crates/robine-store-sqlite/src/lib.rs:2133-2168 | a report confirms exactly the open commands that ask for what it reports, changes nothing else of them, and leaves none of them open |
| CommandChanges.PassExpiresIff | crates/robine-store-sqlite/src/lib.rs:2264-2314 | a pass expires exactly the open commands among the first rows that are older than the timeout, and leaves none of those open |
| CommandChanges.ReportTellsChanges | crates/robine-store-sqlite/src/lib.rs:2133-2168 | the events of a report are one for each row that changed, in the order of the rows, without the cause of the command |
| CommandChanges.PassTellsChanges | crates/robine-store-sqlite/src/lib.rs:2292-2314 | the events of a pass are one for each row that changed, in the order of the rows, with its cause |
| CommandChanges.TransitionSaysStatus | crates/robine-store-sqlite/src/lib.rs:2247-2259 | the event of a transition says the new status of its command, and of a failure why |
| CommandChanges.SameNameIff | crates/robine-store-sqlite/src/lib.rs:1420-1437 | names are the same exactly when they differ at most in the case of ASCII letters |
| CommandChanges.RowIsDeletedIff | crates/robine-store-sqlite/src/lib.rs:464-510 | a purge deletes a row exactly when it is old and fewer old rows than the batch come before it |
| JournalLaws.TopicsRebuildTheirTables | crates/robine-store-sqlite/src/lib.rs:2438-2456 | the events of some topics alone rebuild the tables of those topics, so a subscriber to them can |
| JournalLaws.CommandIsLastEvent | crates/robine-store-sqlite/src/lib.rs:2173-2314 | a command has a row exactly when it was requested, and the row is what the last event about it says |
| JournalLaws.StateIsLastEvent | crates/robine-store-sqlite/src/lib.rs:2087-2131 | a stored property is what the last report event for it says |
| JournalLaws.PurgeKeepsSuffix | crates/robine-store-sqlite/src/lib.rs:464-510 | if the clock did not go back, a purge deletes a prefix of the journal |
| JournalLaws.ReadIsFeedRead | crates/robine-store-sqlite/src/lib.rs:2316-2344 | after such purges a read of the table gives the consecutive numbers the consumers of the feed expect |
| ReportedStates.StoredIsLatest | crates/robine-store-sqlite/src/lib.rs:2097-2131 | after any sequence of reports the stored one has the greatest source time, and is the last to arrive of those |
| ReportedStates.OrderDoesNotMatter | crates/robine-store-sqlite/src/lib.rs:2108-2131 | two arrival orders of the same reports with distinct source times store the same value and source time |
| ReportedStates.VersionCountsAccepted | crates/robine-store-sqlite/src/lib.rs:2115-2123 | the version counts the accepted reports |
| ReportedStates.SourceTimeNeverDecreases | crates/robine-store-sqlite/src/lib.rs:2108-2123 | the stored source time and version never decrease |
| CommandDispatch.CanExpireIffEarlyRow | crates/robine-store-sqlite/src/lib.rs:2264-2314 | over any sequence of requests, dispatches, reports, passes and crashes, a stale command can ever expire exactly when fewer than a hundred commands were created before it, and then the next pass expires it |
| CommandDispatch.LateCommandNeverExpires | crates/robine-application/src/lib.rs:2107-2113 | a reachable table whose hundred-and-first command stays open for ever |
| HomeService.Service.RequestCommand | crates/robine-application/src/lib.rs:2018-2089 | a known key returns its command and does nothing; a new one is created, given to the dispatcher once, and marked with the outcome, with exactly two events; every refusal changes nothing |
| CommandDispatch.DispatchedAtMostOnce | crates/robine-application/src/lib.rs:2018-2089 | under any interleaving of requests and crashes no key is given to the dispatcher twice |
| CommandDispatch.DispatchIsOwn | crates/robine-application/src/lib.rs:2065-2089 | what is dispatched is the command of the request that created the row, for the first time |
| CommandDispatch.MarkTellsOutcome | crates/robine-application/src/lib.rs:2065-2089 | under any interleaving a command marked as dispatched was taken on by the dispatcher, and one marked as failed was sent and refused |
| CommandDispatch.RepeatedKeyIsAnswered | crates/robine-application/src/lib.rs:2032-2037 | a request whose key has a row is answered with that row and sends nothing |
| CommandDispatch.RowsStay | crates/robine-store-sqlite/src/lib.rs:2173-2314 | a row keeps its command, up to the status, whatever happens from then on |
| CommandDispatch.CanBeSentIffNotAbandoned | crates/robine-application/src/lib.rs:2065-2089 | a command that was not sent is sent in some run from then on exactly when its thread has not been lost |
| CommandDispatch.AbandonedIsReachable | crates/robine-application/src/lib.rs:2065-2089 | a crash between creation and dispatch leaves a command that is never sent |
| CausalClaims.ClaimedOnce | crates/robine-store-sqlite/src/lib.rs:2035-2085 | two grants of the same flow and cause are more than 30 days apart, over any sequence of claims and purges |
| CausalClaims.GrantsAreBounded | crates/robine-store-sqlite/src/lib.rs:2063-2085 | at most 32 claims are granted for one cause in any 30 days |
| CausalClaims.ClaimIsGrantedIff | crates/robine-store-sqlite/src/lib.rs:2035-2085 | a claim is granted exactly when the flow was granted none for the cause in the last 30 days and fewer than 32 flows were |
| Cascades.LinkedRunsShareCauseIff | crates/robine-application/src/lib.rs:514-548 | a run that follows from another, over any number of links from a run to a command it requests to an event about the command to a run it triggers, has its cause exactly when none of the events is a confirmation by a report |
| Cascades.CascadeIsBounded | crates/robine-application/src/lib.rs:885-892 | a run starts at most 32 others in any 30 days over such links, as long as none is a confirmation by a report |
| Cascades.ConfirmationsNeverEnd | crates/robine-store-sqlite/src/lib.rs:2157-2168 | a flow triggered by the confirmation of its own command, which carries no cause, starts any number of runs at one time |
| EventStream.OutsideIffLaterEventPurged | crates/robine-api-http/src/lib.rs:1134-1136 | a cursor is outside retention exactly when it is nonzero, a row is left and a later event was purged |
| EventStream.FullyPurgedIsNotOutside | crates/robine-api-http/src/lib.rs:1134-1136 | a fully purged journal and a cursor after which an event is gone, which the check lets pass |
| EventStream.AcceptedIffNothingMissing | crates/robine-api-http/src/lib.rs:1042-1049 | the handshake accepts a nonzero cursor exactly when rows are left, the cursor was issued and no later event was purged |
| StreamProgress.HandshakeAcceptsIff | crates/robine-api-http/src/lib.rs:1020-1049 | the steps of the handshake over a journal at rest accept exactly the cursors that can be resumed |
| StreamProgress.ReplayIsRefusedIff | crates/robine-api-http/src/lib.rs:1050-1055 | a subscriber is refused exactly when more than 500 rows are left above its cursor |
| StreamProgress.ProducerStopsIff | crates/robine-api-http/src/lib.rs:1076-1105 | the producer stops exactly when it has lost more than 512 events or a wanted one finds 128 waiting, and else takes the next event |
| StreamProgress.LiveCatchesUp | crates/robine-api-http/src/lib.rs:1076-1115 | a live subscriber that is not too far behind can be sent all it holds and every wanted event that was published |
| StreamProgress.SubscriberIsServed | crates/robine-api-http/src/lib.rs:1020-1115 | a subscriber that can be resumed and is at most 500 rows behind can be sent every wanted row left above its cursor, and is live then |
| EventStream.StepKeepsFits | crates/robine-api-http/src/lib.rs:1020-1130 | every step of handshake, replay, producer and consumer, and every commit, publication and purge between them, keeps what was sent and is held equal to what is due |
| StreamPromises.SentOnce | crates/robine-api-http/src/lib.rs:1063-1100 | in any publication order no event is sent twice, and only wanted events after the cursor are sent |
| StreamPromises.NothingPassedOver | crates/robine-api-http/src/lib.rs:1050-1100 | in any publication order a wanted event the journal held at the replay was sent, is held, or is still to come |
| StreamPromises.SentIsPrefixIff | crates/robine-api-http/src/lib.rs:1063-1100 | in any publication order, what was sent and is held is a prefix of the wanted events above the base exactly when each wanted event above the cursor that the producer took was the next wanted one |
| StreamPromises.InOrderComesInTurn | crates/robine-api-http/src/lib.rs:1020-1130 | publication in order is enough for that, and then only events purged before the replay lie between the cursor and the base |
| StreamPromises.SentIsPrefix | crates/robine-api-http/src/lib.rs:1020-1130 | what was sent by any moment, also after the connection closed, is then such a prefix |
| StreamPromises.CursorIsResumedIff | crates/robine-api-http/src/lib.rs:1040-1062 | nothing wanted after the given cursor is missing, up to the last event given, exactly when no wanted number lies between the cursor and the base |
| StreamPromises.BaseIsPurged | crates/robine-api-http/src/lib.rs:1050-1056 | when the replay found a row, those numbers are the ones purged before it was read |
| StreamPromises.CursorIsResumed | crates/robine-api-http/src/lib.rs:1040-1062 | nothing is missing if no wanted number after the cursor was purged before the replay, in particular if nothing was purged during the handshake |
| StreamPromises.PurgeDuringHandOverLeavesGap | crates/robine-api-http/src/lib.rs:1042-1050 | a run in which a purge between the check and the replay leaves a gap after an accepted cursor |
| StreamPromises.PurgedIsStillSent | crates/robine-api-http/src/lib.rs:1050-1075 | a run in which a number purged before the replay is sent all the same, because it is published later |
| StreamPromises.ReconnectionContinuesIff | crates/robine-api-http/src/lib.rs:1040-1100 | a client that subscribes again from the last event it was sent has been given over both connections every wanted event up to the last, exactly when no wanted number lies between its new cursor and the new base |
| StreamPromises.LatePublicationReorders | crates/robine-store-sqlite/src/lib.rs:2373-2377 | a run in which events published out of order are sent out of order |
| AutomationEngine.HandledInOrder | crates/robine-runtime/src/main.rs:768-854 | without a crash events are handled in strictly increasing sequence, whatever mix of live delivery, lag and replay |
| AutomationEngine.HandledExactlyOnceIff | crates/robine-runtime/src/main.rs:768-854 | without a crash and with no row purged too early, every event from the first cursor to the current one is handled exactly once, in order, exactly when no event was taken with a gap before it |
| AutomationEngine.GapArises | crates/robine-runtime/src/main.rs:808-816 | a gap arises exactly when a live event is handled while a retained event lies between the cursor and it; a replay leaves none |
| AutomationEngine.InOrderLeavesNoGap | crates/robine-runtime/src/main.rs:768-854 | publication in order is enough for that |
| AutomationEngine.HandledAtLeastOnceIff | crates/robine-runtime/src/main.rs:809-854 | with any crashes, and with no row purged too early, every event up to the saved cursor was handled exactly when the cursor was never saved past a gap |
| AutomationEngine.HandledAtLeastOnce | crates/robine-runtime/src/main.rs:809-854 | when rows are purged too early, they are the only events that may be passed over |
| AutomationEngine.RepeatsAreCrashes | crates/robine-runtime/src/main.rs:809-854 | in any publication order each crash makes the engine repeat at most one event |
| AutomationEngine.SavedNeverDecreases | crates/robine-store-sqlite/src/lib.rs:544-557 | the saved cursor never decreases |
| AutomationEngine.LatePublicationIsSkipped | crates/robine-runtime/src/main.rs:808-816 | a run in which an event published after a later one is skipped for good |
| AutomationEngine.LatePublicationIsCovered | crates/robine-runtime/src/main.rs:828-854 | a run in which publication out of order does no harm, because a replay covers it |
| EngineCoverage.NothingTakenIsLeft | crates/robine-runtime/src/main.rs:768-854 | in any publication order and with any crashes, a live engine has every event it took from the broadcast, or found published when it caught up, at or below its cursor, unless purged |
| EngineCoverage.ReceivedIsHandledIff | crates/robine-runtime/src/main.rs:808-824 | an event received is handled at once exactly when it is above the cursor and no more than 512 were lost; else the engine goes back to the journal or passes on |
| EngineReplay.Engine.ReplayAutomationEvents | crates/robine-runtime/src/main.rs:828-854 | the batch loop handles the events its reads find, in order, saving after each, and finishes exactly when a read finds nothing |
| EngineReplay.ReplayIncreases | crates/robine-runtime/src/main.rs:828-854 | a replay handles events after the cursor in strictly increasing sequence |
| EngineReplay.ReplayIsComplete | crates/robine-runtime/src/main.rs:828-854 | with nothing purged past the cursor a replay skips nothing, and when it finishes the journal held nothing more |
| HueGate.SlotsMeetDeadline | crates/robine-integration-hue/src/lib.rs:1084-1091 | a granted slot lies between its request and that time plus the deadline |
| HueGate.RefusedIffLate | crates/robine-integration-hue/src/lib.rs:1084-1091 | a request is refused exactly when the queue ahead of it is longer than the deadline |
| HueGate.SlotsAreSpaced | crates/robine-integration-hue/src/lib.rs:1084-1091 | consecutive grants are at least the interval apart, for every request sequence |
| HueGate.GrantsArePairwiseApart | crates/robine-integration-hue/src/lib.rs:1084-1091 | any two grants of a gate are as many intervals apart as there are grants between them |
| HueGate.WindowBound | crates/robine-integration-hue/src/lib.rs:1049-1057 | a window of length L holds at most ceil(L / interval) grants |
| HueGate.BurstAccepted | crates/robine-integration-hue/src/lib.rs:1084-1091 | requests at one instant are accepted up to the room left before the deadline and refused after it |
| HueGate.IdleBurst | crates/robine-integration-hue/src/lib.rs:1049-1057 | an idle gate accepts exactly floor(deadline / interval) + 1 requests at one instant |
| HueCoalescing.ReachableFits | crates/robine-integration-hue/src/lib.rs:1142-1255 | the invariant of the protocol holds after any interleaving of any number of dispatches |
| HueCoalescing.PendingBelongsToLast | crates/robine-integration-hue/src/lib.rs:1206-1251 | a key is pending exactly while the dispatch inserted last under it is in flight, with its revision and value |
| HueCoalescing.ChecksKeepTheLast | crates/robine-integration-hue/src/lib.rs:1177-1195 | at either check a dispatch goes on exactly when it is the last inserted under its key; otherwise it ends with an explicit error |
| HueCoalescing.LastIsSentOrRefused | crates/robine-integration-hue/src/lib.rs:1177-1202 | the newest value of a key is sent, unless the queue of the bridge was full |
| HueCoalescing.CallsAreOwn | crates/robine-integration-hue/src/lib.rs:1177-1202 | a dispatch calls the bridge at most once, with its own value, not before its slot, and a returned dispatch either did or says why not |
| HueOutcomes.OutcomeIsTheAnswer | crates/robine-integration-hue/src/lib.rs:1177-1202 | a dispatch returns what the bridge answered it, or that the queue was full when it was given no slot |
| HueOutcomes.FailedCheckSaysWhy | crates/robine-integration-hue/src/lib.rs:1206-1240 | a failed check says that the value was superseded exactly while a newer one of its key is in flight, and else that it disappeared |
| HueCoalescing.NothingPendingWhenIdle | crates/robine-integration-hue/src/lib.rs:1183-1202 | the table is empty when nothing is in flight |
| HueCoalescing.TrafficIsBounded | crates/robine-integration-hue/src/lib.rs:1178-1202 | however many commands arrive, the bridge has been called at most once per interval since the start, plus one |
| BridgeOrder.OlderCallsLaterIffCleared | crates/robine-integration-hue/src/lib.rs:1189-1201 | when the newest dispatch of a key calls the bridge, some run has an older one of the key call after it exactly when that one had passed its second check and not called yet |
| BridgeOrder.OlderValueCanArriveLast | crates/robine-integration-hue/src/lib.rs:1189-1201 | a run in which the bridge sees the older value last |
| CanonicalJson.SortArranges | crates/robine-mcp-types/src/lib.rs:203-232 | the fields of an object are brought into key order, and no field is lost or added |
| CanonicalText.CanonicalSpells | crates/robine-mcp-types/src/lib.rs:203-232 | the canonical text is a JSON text of the value by the grammar of RFC 8259, without white space and with fields in the order of their keys |
| CanonicalText.EscapesAreMinimal | crates/robine-mcp-types/src/lib.rs:208-208 | which characters of a string are escaped, and how briefly |
| CanonicalInjective.EquivalentSameText | crates/robine-mcp-types/src/lib.rs:203-232 | values equal up to key order have the same text |
| CanonicalInjective.CanonicalSplits | crates/robine-mcp-types/src/lib.rs:203-232 | a canonical text followed by a delimiter ends where it ends: the encoding is self-delimiting |
| CanonicalInjective.CanonicalIffEquivalent | crates/robine-mcp-types/src/lib.rs:197-233 | two arguments have the same canonical text exactly when they are equal up to the order of keys, for any nesting |

## Left out

- Spans and texts of diagnostics: errors are kinds, and the first one is reported where the source reports a list of one.
- Rounding of `f64`: duration and brightness literals are exact decimals, and reported percentages are reals. Exponents, infinities and NaN cannot be written in a number atom.
- Integer widths: sequence numbers, revisions and versions are unbounded; a run would need 2^63 events or 2^64 dispatches to tell. The attempt counter is 8 bits wide and saturates as in the source.
- Whether a flow is enabled, and whether an awaited trigger matches an event, are parameters of the engine steps.
- Schedules, time zones and weekdays.
- Which flows an event triggers: the claim that such a run needs is modelled, the matching of triggers is not.
- UUID parsing is a parameter of guard evaluation, and new ids are parameters.
- `create` accepts flows that do not compile, and actions that are not lists; the laws of `choose` are stated for flows whose actions are lists, which is what resolution requires.
- Whether a confirmed command stays confirmed: the status is written whatever it was, and the model does the same.
- Device and entity tables, their payload copies, and `create_area_with_entities`: `JournalLaws` speaks of the command, state, automation, area and adapter tables.
- Persisted payloads read back as they were written; store failures, poisoned mutexes and decoding errors do not occur.
- Interleaving of whole engine handlers: one task awaits each of them, so each is one step.
- Crashes inside a handler, but for those among the calls of a segment (`CrashReplay`): `EngineRuns` takes each handler as a whole, so it does not cover a crash between the write of a run row and that of its trace, which loses the trace, nor one inside a single gateway call, which `CommandDispatch` covers by itself.
- Retention of run traces: `EngineRuns` keeps every trace.
- Times are integers, and the clock does not go back in `CausalClaims` and `JournalLaws.PurgeKeepsSuffix`.
- Topic validation and client messages of the stream: a subscriber has any set of topics, and may be closed at any moment.
- Scheduled and state-triggered executions, `simulate`, Flow check diagnostics, HTTP, TLS, MQTT, Matter, the Hue backoff and colour conversion: members without a law that spans operations.
- SHA-256: the canonical text is modelled, not its hash.
- HomeService.Service.RequestCommand: the checks on the entity and its capability are one parameter.
- Store.SqliteStore.CreateArea: names are compared by ASCII case only, which is what the column collation does.
- StreamPromises.SentIsPrefix: says nothing of liveness; a slow subscriber is told to resynchronize.
- Store.SqliteStore.PruneEvents: the traces and claims that the same transaction deletes are not part of its state; purges of claims are steps of `CausalClaims`.
- Cascades: a run queued or skipped after its claim counts as started, and rows of runs stored before causes existed are not modelled.
