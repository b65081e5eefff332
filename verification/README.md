# ElephantBroker runtime: a verified model of its session state

The runtime keeps what it knows about an agent's session in Redis and rewrites it on every lifecycle call.
This project models the parts that carry that state and proves what they keep over whole runs:

- **Session lifecycle** (`SessionModel`, `Lifecycle`, `SessionRuns`, `SessionEffects`, `SessionInterleaving`, `SessionIds`,
  `PhaseMachine`). `ContextLifecycle` has the source's methods: each loads the record, changes its copy and saves
  it; `AfterTurn` nests `IngestBatch` and `Compact`, each with a load and a save of its own. Every method is proved to
  have the effect of one function on the whole state (`...Spec`); `SessionEffects` says field by field what that
  effect is, and `SessionRuns` proves properties of all sequences of effects. `SessionInterleaving` takes loads and
  saves apart and lets calls overlap.
- **Compaction and assembly** (`Compaction`, `Assembler`, `Messages`): classification into three buckets, the
  trigger that is written twice, and the token budgets under floor division.
- **Tool outputs** (`ToolArtifacts`): capture by content hash, and replacement by placeholders that lose nothing.
- **Ingest buffer and recent facts** (`IngestBuffer`, `RecentFacts`): atomic Redis steps under any interleaving.
- **Keys and envelope** (`RedisKeys`, `Envelope`): which keys can coincide, what scan patterns match, and a parser
  that undoes its printer.
- **Configuration** (`ConfigOverrides`, `EnvBindings`, `ConfigLoading`): updates along dotted paths, the whole
  binding registry, inheritance and path normalising.
- **Goals and traces** (`GoalForest`, `TraceGroups`, `StableSort`): the recursive walk and the turn grouping.

`Basics` and `Whitespace` hold shared vocabulary. A floating-point threshold or ratio is an exact rational or real.
The identifier that a call would generate is a parameter of the call.

## Where the code does less than its documentation says

Each of these is a theorem, with the exact condition where there is one.

- Fallback ids are said to be shared by all calls of a session window (`lifecycle.py:126-127`). A record that is
  created for such an id drops it again, and a completed turn with messages drops it too
  (`FallbackSurvives`, `FallbackAfterTurn`). A conversation that never gets a real id and is never bootstrapped
  explicitly has no turn counted, ever (`AnonymousTurnsNeverCount`). A cache hit does not renew an entry
  (`HitDoesNotRenew`).
- The batch counter of `after_turn` is incremented after the record was saved and is lost; the batch evaluation
  fires on every turn for a batch size of at most one and never otherwise (`BatchNeverFills`).
- Compaction resets the bookkeeping but leaves the message list alone, so once a session is over its threshold
  every later turn compacts again (`EveryLaterTurnCompacts`).
- Concurrent turns of a session are lost exactly when one is saved over another (`TurnsLostExactlyWhenLate`).
- `_classify_single` applies its drop rules before the durable-fact rule, the reverse of its docstring (`DurableKept`),
  and finds a message's position by value (`RepeatedQuestion`).
- A fallback summary that needs no cutting costs at least as much as what it replaces (`UncutSummarySavesNothing`).
- `_truncate_to_budget` keeps its bound only for a budget of at least 1; the policy allows 0 (`TruncationBound`).
- Joined blocks exceed their budget by rounding and separators; the bound is sharp (`JoinCost`).
- A gateway id that extends another one by a colon shares keys with it (`GatewaysIsolated`); approval keys meet the
  session families when an agent is named like a family (`ApprovalMeetsSession`); a session id with a glob
  character makes the scan miss its own keys or find those of another session (`SnapshotScan`); and a backslash,
  which the start-up check lets through, takes the scans to another gateway (`ScanStaysInGateway`).
- The timeline counts a flush as a turn when no turn was completed; the summary does not (`TurnCountMatches`).
- A limit of 0 keeps all recent facts (`LimitKept`, `WindowOfTurns`) and all tool outputs (`KeptIndices`).
- A scrub can be undone by a turn that had loaded the window before it (`ScrubbedStaysOut`).

## Model

| member | source | states |
|---|---|---|
| SessionRuns.RunSound | elephantbroker/runtime/context/lifecycle.py:633-638 | in every run of bootstrap, assemble, ingest, after-turn, compact, end, dispose and window reports, over any number of sessions, every stored injection turn is at most the stored turn count |
| SessionRuns.TurnsCounted | elephantbroker/runtime/context/lifecycle.py:888-891 | over any run that does not end the session, the turn count rises by exactly the number of its completed turns, the profile stays, compactions never go back, stored messages are only appended to |
| SessionRuns.TurnEffect | elephantbroker/runtime/context/lifecycle.py:979-1055 | a completed turn that compacts ends with turn count +1, compaction count +1 and both injection maps empty, everything else as before; one that does not compact changes the turn count only; the turn's messages are appended with the ending turn's number |
| SessionEffects.CompletedTurn | elephantbroker/runtime/context/lifecycle.py:888-1055 | the turn's messages are appended with only their stamp changed, to the number of the turn that ends; the count rises by one; the record is compacted if and only if the stored tokens exceed the target times 1.5, 2 or 3 by cadence |
| SessionEffects.SkippedTurn | elephantbroker/runtime/context/lifecycle.py:868-871 | a completed turn of a session without a record changes no record, message or remembered id |
| SessionEffects.BootstrapEffect | elephantbroker/runtime/context/lifecycle.py:160-318 | a missing record is created blank, field by field, an existing one stays; the key then remembers the session |
| SessionEffects.AssembleChanges | elephantbroker/runtime/context/lifecycle.py:633-691 | an assemble adds exactly the snapshot's new items with the current turn, remembers the snapshot, records injected goals, and leaves every other field, session and message alone |
| SessionEffects.IngestEffect | elephantbroker/runtime/context/lifecycle.py:388-404 | an ingest appends its messages with only their stamp changed and leaves the record alone |
| SessionEffects.CompactEffect | elephantbroker/runtime/context/lifecycle.py:776-832 | the record is reset if and only if there is one with messages and the call is forced or over the threshold; messages stay |
| SessionEffects.WindowEffect | elephantbroker/runtime/context/session_store.py:105-112 | only the window of an existing record changes |
| SessionEffects.DisposeEffect | elephantbroker/runtime/context/lifecycle.py:1183-1193 | only the fallback entry of the key goes |
| SessionRuns.StepFrame | elephantbroker/runtime/context/session_store.py:30-55 | no call touches the record or the messages of a session other than its own |
| SessionRuns.StepRecord | elephantbroker/runtime/context/lifecycle.py:824-832 | no call loses an existing record; only a completed turn changes the turn count |
| SessionRuns.StampsAfterInjections | elephantbroker/runtime/context/lifecycle.py:388-394 | messages that arrive at any later point of a session are stamped with a turn at least as large as every injection turn recorded before, also across compaction resets |
| SessionRuns.BatchNeverFills | elephantbroker/runtime/context/lifecycle.py:1009-1028 | in every run the stored batch counter is still zero, so the batch evaluation fires on a turn exactly when the batch size is at most one |
| SessionRuns.EveryLaterTurnCompacts | elephantbroker/runtime/context/lifecycle.py:1031-1055 | once the stored messages are over the threshold they stay over it, and every later completed turn compacts |
| SessionRuns.RemindedInTime | elephantbroker/runtime/context/lifecycle.py:1396-1426 | any run from turn t on, with any calls in between, injects the goal at least once up to an assemble that lists it in turn t + interval − 1 or later |
| SessionRuns.ReminderEveryInterval | elephantbroker/runtime/context/lifecycle.py:1419-1424 | counted from the end of any turn of a reachable session, a reminder interval never passes without an injection of a goal still listed in its last turn, also across compaction resets |
| SessionRuns.FilterExact | elephantbroker/runtime/context/lifecycle.py:1411-1424 | with distinct ids a goal is injected if and only if it has no mark in the history at the start of the call, has blockers, has another status than its mark, or its interval is over; then turn and status are recorded, otherwise the mark stays |
| SessionRuns.BlockedServed | elephantbroker/runtime/context/lifecycle.py:1411-1419 | a listed goal with blockers is injected in every call |
| SessionEffects.InjectedExactly | elephantbroker/runtime/context/lifecycle.py:1396-1426 | on the record: without the smart cadence all goals are injected and no mark changes; with it every blocked goal is, and with distinct ids exactly the unrecorded, blocked, changed and due ones |
| SessionEffects.UnlistedStays | elephantbroker/runtime/context/lifecycle.py:1421-1424 | the mark of a goal that is not listed stays as it is |
| SessionRuns.NoEarlyReminder | elephantbroker/runtime/context/lifecycle.py:1411-1419 | over any run without a compaction, an unblocked goal in an unchanged status is not injected again before the interval is over |
| SessionRuns.StepMarks | elephantbroker/runtime/context/lifecycle.py:824-832 | every call either compacts, clearing both maps and counting one compaction, or keeps all injection turns and gives new items the current turn |
| SessionRuns.FirstInjectionStays | elephantbroker/runtime/context/lifecycle.py:633-638 | the turn of an item's first injection stays on record until a compaction, however often it is injected again |
| SessionModel.MarkItemsExact | elephantbroker/runtime/context/lifecycle.py:633-638 | exactly the snapshot's items are added; an item seen before keeps its turn, a new one gets the current one |
| SessionModel.FilterIsSubsequence | elephantbroker/runtime/context/lifecycle.py:1403-1426 | the injected goals stand at strictly increasing positions of the given ones |
| SessionModel.AssembledConsistent | elephantbroker/runtime/context/lifecycle.py:633-638 | an assemble on a record without future injection turns leaves it without |
| SessionModel.PrecheckAgrees | elephantbroker/runtime/context/lifecycle.py:1034-1040 | the precheck, written with the multiplier table, fires exactly when the engine's own trigger does |
| Compaction.TriggerExactly | elephantbroker/runtime/compaction/engine.py:333-349 | fires when forced or when the tokens exceed the target times 1.5 for aggressive, 3 for minimal and 2 for any other cadence |
| Messages.EstimateExactly | elephantbroker/runtime/compaction/engine.py:71-73 | a token is four characters, rounded down, and at least one |
| SessionRuns.FallbackSurvives | elephantbroker/runtime/context/lifecycle.py:520-527 | after an assemble or ingest without an id, the next call without an id means the same session if and only if its record existed before |
| SessionRuns.FallbackAfterTurn | elephantbroker/runtime/context/lifecycle.py:877-884 | after a completed turn without an id the id is still known if and only if the turn had no messages and did not compact |
| SessionRuns.AnonymousTurnsNeverCount | elephantbroker/runtime/context/lifecycle.py:866-871 | over any run in which a session key is used without an id and without an explicit bootstrap, every turn count under that key stays zero |
| Lifecycle.ContextLifecycle.EnsureSessionId | elephantbroker/runtime/context/lifecycle.py:123-143 | a given id is answered unchanged, a cached one reused, a new one cached after evicting the oldest of 128 |
| Lifecycle.ContextLifecycle.Bootstrap | elephantbroker/runtime/context/lifecycle.py:160-318 | creates the record only where there is none, remembers the id for the end of the session, drops the fallback for a real id |
| Lifecycle.ContextLifecycle.FilterGoalsForInjection | elephantbroker/runtime/context/lifecycle.py:1396-1426 | the loop that updates the history while it reads it yields the specified goals and history |
| Lifecycle.ContextLifecycle.Assemble | elephantbroker/runtime/context/lifecycle.py:512-691 | the whole new state, with the nested bootstrap; the answer holds the goals filtered on the record as loaded |
| Lifecycle.ContextLifecycle.IngestBatch | elephantbroker/runtime/context/lifecycle.py:362-484 | the whole new state, whether or not the caller saves: the messages are stamped and appended, the record is unchanged |
| Lifecycle.ContextLifecycle.Compact | elephantbroker/runtime/context/lifecycle.py:762-832 | the record is reset exactly when it exists, has messages and the engine's trigger fires |
| Lifecycle.ContextLifecycle.AfterTurn | elephantbroker/runtime/context/lifecycle.py:858-1055 | the net effect of the nested ingest, the increment, its save and the nested compaction with their own loads and saves; says exactly when the batch evaluation fires |
| Lifecycle.TurnComposed | elephantbroker/runtime/context/lifecycle.py:873-1055 | the separate loads and saves of a turn compose to its net effect; none overwrites another |
| Lifecycle.ContextLifecycle.SaveContextWindow | elephantbroker/runtime/context/session_store.py:105-112 | changes the window of an existing record and nothing else |
| Lifecycle.ContextLifecycle.SessionEnd | elephantbroker/runtime/context/lifecycle.py:1206-1258 | removes the record of the given id, else of the remembered one, else of the fallback, and both cache entries; messages stay |
| SessionEffects.EndEffect | elephantbroker/runtime/context/lifecycle.py:1228-1258 | an end with a real id removes exactly that record; without one it removes the remembered session, else the cached fallback, else nothing that exists; the key is forgotten by both caches and messages stay |
| SessionEffects.EndsWhatWasBooted | elephantbroker/runtime/context/lifecycle.py:1228-1258 | over any run after a bootstrap in which no call bootstraps or ends the key and its entry is not evicted, an end without an id removes exactly the record of that bootstrap |
| SessionEffects.RememberedLongEnough | elephantbroker/runtime/context/lifecycle.py:192-195 | the entry is not evicted while the entries younger than it and the bootstraps since, nested ones included, stay below 128 |
| SessionEffects.RunBootedValid | elephantbroker/runtime/context/lifecycle.py:192-195 | in every run at most 128 sessions are remembered, one for each key |
| Lifecycle.ContextLifecycle.Dispose | elephantbroker/runtime/context/lifecycle.py:1183-1193 | clears the fallback entry of the key and touches no stored state |
| Lifecycle.ExtractResponseDelta | elephantbroker/runtime/context/lifecycle.py:1428-1459 | the answer is the suffix after the last user message: it holds no user message, and is shorter than the list if and only if there is one, which then stands right before it |
| SessionInterleaving.InterleavedConsistent | elephantbroker/runtime/context/session_store.py:42-50 | however loads and saves of concurrent calls interleave, no stored or loaded record holds an injection turn beyond its turn count |
| SessionInterleaving.TurnsLostExactlyWhenLate | elephantbroker/runtime/context/lifecycle.py:868-981 | concurrent turns are all counted if and only if none is saved after another was saved on top of the record it had loaded |
| SessionInterleaving.NothingLateNothingLost | elephantbroker/runtime/context/session_store.py:42-50 | with any mix of calls in flight, no late save means no lost turn |
| SessionInterleaving.LostTurn | elephantbroker/runtime/context/session_store.py:105-112 | two overlapping turns count as one; an overlapping window report undoes a turn |
| SessionIds.RunValid | elephantbroker/runtime/context/lifecycle.py:133-137 | in every run of calls and pops the cache holds at most 128 entries, one per key |
| SessionIds.InsertEffect | elephantbroker/runtime/context/lifecycle.py:133-137 | an insertion ages every other entry by one and evicts exactly the one with 127 younger entries |
| SessionIds.FallbackShared | elephantbroker/runtime/context/lifecycle.py:123-143 | a key that is not popped keeps its id while its younger entries and the keys inserted since stay below 128 |
| SessionIds.FreshFallbackShared | elephantbroker/runtime/context/lifecycle.py:123-143 | two empty-id calls share the id that the first one generated if the key was not popped and fewer than 128 keys were inserted between |
| SessionIds.EvictedExactly | elephantbroker/runtime/context/lifecycle.py:133-137 | without pops that bound is exact, counted from the key's insertion however often the key is hit in between |
| SessionIds.HitDoesNotRenew | elephantbroker/runtime/context/lifecycle.py:131-132 | a hit on the oldest of 128 entries does not save it from the next insertion |
| PhaseMachine.LifecycleStateMachine.Transition | elephantbroker/schemas/lifecycle.py:81-88 | takes allowed transitions and records them; a refused one changes nothing and names the pair |
| PhaseMachine.LifecycleStateMachine.CanTransition | elephantbroker/schemas/lifecycle.py:90-93 | true exactly when the transition would change the record |
| PhaseMachine.RunsArePaths | elephantbroker/schemas/lifecycle.py:76-88 | whatever is attempted, history and current phase form a valid path from the start |
| PhaseMachine.PathsAreRuns | elephantbroker/schemas/lifecycle.py:22-64 | the valid paths are exactly the attempts that are taken in full |
| PhaseMachine.TurnsFollowIngests | elephantbroker/schemas/lifecycle.py:22-64 | on every path the after-turn phases never exceed the ingest phases, and fall behind by one while a turn is open |
| PhaseMachine.RunShape | elephantbroker/schemas/lifecycle.py:22-64 | in every run bootstrap is first and only first, nothing follows dispose, a subagent's end directly follows its spawn, and every prefix has at least as many ingests as after-turns |
| PhaseMachine.EnteredFrom | elephantbroker/schemas/lifecycle.py:22-64 | from which phases each phase can be entered |
| Compaction.HighestClass | elephantbroker/runtime/compaction/engine.py:495-506 | the first class of the highest rank |
| Compaction.HighestExactly | elephantbroker/runtime/compaction/engine.py:495-506 | policy, procedural, semantic, episodic in this order if present; otherwise the first class given, or working memory for none |
| Compaction.ClassifyMessages | elephantbroker/runtime/compaction/engine.py:355-386 | each bucket is the subsequence of the messages that the rules send there |
| Compaction.BucketsExactly | elephantbroker/runtime/compaction/engine.py:388-428 | a message is dropped if and only if it was compacted before or is phatic; of the rest it is preserved if and only if it is linked to a policy or procedural fact, shares a word with a goal, is an open question, states a decision or refers to evidence, three of these if the policy says so |
| Compaction.BucketsKeepOrder | elephantbroker/runtime/compaction/engine.py:377-386 | each bucket holds messages at increasing positions of the list |
| Compaction.PhaticExactly | elephantbroker/runtime/compaction/engine.py:434-444 | on the text between its white space: a user's, under 20 characters, without question mark, and one of the phrases |
| Compaction.OpenExactly | elephantbroker/runtime/compaction/engine.py:468-488 | a question of the list is open if and only if, after the first equal message, no other role says more than five characters |
| Compaction.DurableExactly | elephantbroker/runtime/compaction/engine.py:508-530 | the highest linked class is durable if and only if some linked fact has policy or procedural at its place in the list of classes |
| Messages.PiecesReadBack | elephantbroker/runtime/compaction/engine.py:520-524 | a comma-separated list of trimmed, non-empty items is read back as it was written |
| Messages.SplitExactly | elephantbroker/runtime/compaction/engine.py:520-524 | the pieces of a split hold no separator and join to the text |
| Compaction.Partition | elephantbroker/runtime/compaction/engine.py:377-386 | the three buckets together hold every message as often as given, and their token counts add up |
| Compaction.DurableKept | elephantbroker/runtime/compaction/engine.py:388-428 | a message linked to a policy or procedural fact is preserved if and only if it is neither phatic nor compacted before |
| Compaction.QuestionsAreNotPhatic | elephantbroker/runtime/compaction/engine.py:434-444 | a text with a question mark is never phatic |
| Compaction.OpenQuestionsKept | elephantbroker/runtime/compaction/engine.py:388-428 | with the policy on, no open question that was not compacted before is compressed or dropped |
| Compaction.QuestionsCloseForGood | elephantbroker/runtime/compaction/engine.py:468-488 | as the conversation grows a question stays open exactly while no new message answers it, and never reopens |
| Compaction.RepeatedQuestion | elephantbroker/runtime/compaction/engine.py:478-488 | a repeated unanswered question counts as open if and only if nothing answered it between its first and this occurrence |
| Compaction.CompactionShrinks | elephantbroker/runtime/compaction/engine.py:594-599 | without a model answer the tokens after are at most the preserved ones plus the cap, so the total falls when the rest holds more than the cap; in general it falls if and only if the rest holds more than the summary costs |
| Compaction.SummaryExactly | elephantbroker/runtime/compaction/engine.py:533-599 | nothing for nothing; the model's trimmed answer; else the conversation, whole up to four characters per token and otherwise cut there with dots |
| Compaction.ConversationExactly | elephantbroker/runtime/compaction/engine.py:542-544 | each message is a line of its own with its role in brackets before its text |
| Compaction.UncutSummarySavesNothing | elephantbroker/runtime/compaction/engine.py:546-551 | a fallback summary below the cap costs at least as many tokens as the messages it stands for |
| Compaction.CompactionEngine.CompactWithContext | elephantbroker/runtime/compaction/engine.py:145-305 | below the threshold nothing changes; otherwise the session's state is replaced and the ids of everything compressed or dropped join its set; other sessions are untouched |
| Compaction.StateExactly | elephantbroker/runtime/compaction/engine.py:208-252 | the first 20 decisions, 10 open questions and 10 evidence references of the preserved messages, the digest, the number of messages and the tokens that remain |
| Compaction.PreservedIdsExactly | elephantbroker/runtime/compaction/engine.py:218-221 | the preserved ids are exactly the non-empty ids of preserved messages |
| Compaction.IdsJoin | elephantbroker/runtime/context/session_store.py:77-83 | the ids of a compaction join those of earlier ones |
| Compaction.CompactedIdsExact | elephantbroker/runtime/compaction/engine.py:254-270 | an id is marked as compacted if and only if a message that is not in the preserved bucket carries it, as its own or among those of its facts |
| Assembler.BudgetsAddUp | elephantbroker/runtime/context/assembler.py:146-155 | the four block budgets sum to the effective budget and are all non-negative exactly when it is |
| Assembler.SharesExactly | elephantbroker/runtime/context/assembler.py:146-155 | blocks 1, 2 and 4 get a fifth, a tenth and a twentieth rounded towards zero, the first and the last up to their caps; block 3 gets the rest |
| Assembler.EffectiveBudget | elephantbroker/runtime/context/lifecycle.py:1284-1298 | the effective budget respects the profile, the caller's budget and the fraction of the window, and is negative only after a negative window report |
| Assembler.EffectiveBudgetExactly | elephantbroker/runtime/context/lifecycle.py:1284-1298 | the budget is the smallest of the limits that apply, and one of them |
| Assembler.TruncationBound | elephantbroker/runtime/context/assembler.py:445-466 | the truncated text is within its budget for every text if and only if the budget is at least 1 |
| Assembler.PositiveBudgetHolds | elephantbroker/runtime/context/assembler.py:445-466 | for a budget of at least 1 the result is the text itself or a prefix of it and dots, within the budget |
| Assembler.CutExactly | elephantbroker/runtime/context/assembler.py:452-466 | a text over its budget is cut at the last newline of the second half of the room, else at the last blank there, else at its end |
| Assembler.TakeFitting | elephantbroker/runtime/context/assembler.py:177-200 | the loop takes a prefix that fits and that no next part would |
| Assembler.FitIsLongest | elephantbroker/runtime/context/assembler.py:177-200 | such a greedy prefix is the longest one within the budget |
| Assembler.JoinCost | elephantbroker/runtime/context/assembler.py:39-41 | joining k parts costs at most floor((3k + (k − 1)·separator) / 4) tokens beyond the parts, which is floor((5k − 2) / 4) for a blank line, and this is reached |
| Assembler.OrderExactly | elephantbroker/runtime/context/assembler.py:430-442 | the order is a permutation in which policy, procedural, semantic, episodic and working memory come in this order and everything else last; within a category, and among everything else, scores fall |
| Assembler.TiesExactly | elephantbroker/runtime/context/assembler.py:435-442 | items of the same category and score keep the order of the snapshot |
| Assembler.EligibleExactly | elephantbroker/runtime/context/assembler.py:160-181 | block 1 takes exactly the items with the flag and block 3 those without, in snapshot order |
| Assembler.Block1Exactly | elephantbroker/runtime/context/assembler.py:157-172 | a bullet for each constraint; for guard rules a heading and a bullet each, after an empty line if there are constraints |
| Assembler.ItemExactly | elephantbroker/runtime/context/assembler.py:340-379 | a text of at most 400 characters is shown whole; of a longer one at most the first 120, on one line, with the call that brings the rest |
| Assembler.AssembleFromSnapshot | elephantbroker/runtime/context/assembler.py:128-225 | block 1 is within its budget when that is at least 1; block 3 is the longest fitting prefix of the order, and its joined text exceeds the budget by at most the cost of joining |
| Assembler.RenderGoalBlock | elephantbroker/runtime/context/assembler.py:382-408 | the header and the longest fitting prefix of the goal lines, within the budget plus one token per goal shown |
| Assembler.GoalLineExactly | elephantbroker/runtime/context/assembler.py:390-400 | a goal's line is its title, its description and status if any, and all its blockers, with nothing in between |
| Assembler.RenderEvidenceBlock | elephantbroker/runtime/context/assembler.py:411-427 | the nested loops yield the longest fitting prefix of all reference lines together |
| Assembler.RefsExactly | elephantbroker/runtime/context/assembler.py:416-420 | the reference lines follow item by item; each names its evidence and shows the first 80 characters of its item |
| ToolArtifacts.SessionArtifactStore.Store | elephantbroker/runtime/context/session_artifact_store.py:36-45 | writes one artifact of one session |
| ToolArtifacts.SessionArtifactStore.GetByHash | elephantbroker/runtime/context/session_artifact_store.py:57-67 | finds an artifact of that hash if and only if the session has one |
| ToolArtifacts.SessionArtifactStore.IncrementInjected | elephantbroker/runtime/context/session_artifact_store.py:102-111 | raises one counter of one artifact, if it exists, and nothing else |
| ToolArtifacts.SessionArtifactStore.IncrementSearched | elephantbroker/runtime/context/session_artifact_store.py:113-122 | the same for the search counter |
| ToolArtifacts.SessionArtifactStore.CaptureToolOutputs | elephantbroker/runtime/context/lifecycle.py:430-446 | captures each qualifying tool output whose hash the session does not have yet |
| ToolArtifacts.CaptureAllSound | elephantbroker/runtime/context/lifecycle.py:430-446 | a capture keeps hashes true to contents and unique in the session, keeps every artifact, and leaves an artifact for every qualifying output |
| ToolArtifacts.CaptureExactly | elephantbroker/runtime/context/lifecycle.py:430-446 | a batch adds an artifact for a message if and only if it is a qualifying tool output, its hash is new to the session and no earlier message of the batch has its text; the artifact holds the text, its hash, its first 200 characters and its size |
| ToolArtifacts.RunsStaySound | elephantbroker/runtime/context/session_artifact_store.py:36-67 | over any run of captures, creations and counter updates, every non-empty hash is its content's hash and occurs once in the session |
| ToolArtifacts.RunsGrow | elephantbroker/runtime/context/session_artifact_store.py:102-122 | no later operation of a run removes an artifact or changes its content |
| ToolArtifacts.KeptIndices | elephantbroker/runtime/context/lifecycle.py:1322-1326 | slicing the index list keeps a tool message exactly when fewer than n tool messages follow it; with n = 0 all are kept |
| ToolArtifacts.SessionArtifactStore.ReplaceOldToolOutputs | elephantbroker/runtime/context/lifecycle.py:1318-1367 | position by position, exactly the outputs that can be replaced are, each by a placeholder for an artifact of its content; everything else stays |
| ToolArtifacts.ReplacedExactly | elephantbroker/runtime/context/lifecycle.py:1318-1345 | a message is replaced if and only if it is a tool output that at least the positive number of kept ones follow, has more than the minimum of tokens, and the session has an artifact of its hash; the placeholder names that artifact in text and metadata and keeps everything else |
| ToolArtifacts.StandsDiffers | elephantbroker/runtime/context/lifecycle.py:1336-1345 | a placeholder always differs from the original it stands for and names an artifact of the session |
| ToolArtifacts.ReplacementIsLossless | elephantbroker/runtime/context/lifecycle.py:1318-1367 | length, roles and names stay, only tool messages outside the kept ones differ, and every original text can be read back from the artifact that its placeholder names |
| IngestBuffer.IngestBuffer.AddMessages | elephantbroker/pipelines/turn_ingest/buffer.py:67-101 | pushes and trims to three batches in one step and says whether a batch is full; other sessions are untouched |
| IngestBuffer.IngestBuffer.Flush | elephantbroker/pipelines/turn_ingest/buffer.py:103-113 | returns the list and empties it in one step |
| IngestBuffer.IngestBuffer.Submit | elephantbroker/api/routes/memory.py:562-567 | adds, and drains when told that a batch is full |
| IngestBuffer.Conservation | elephantbroker/pipelines/turn_ingest/buffer.py:86-112 | under any interleaving of adds and drains each drain returns the end of what was pushed since the drain before it, so nothing is returned twice and order is kept |
| IngestBuffer.BufferIsTail | elephantbroker/pipelines/turn_ingest/buffer.py:86-100 | with one batch size B a drain returns exactly the last 3B messages since the drain before it |
| IngestBuffer.SmallCallsLoseNothing | elephantbroker/pipelines/turn_ingest/buffer.py:86-101 | a caller that drains when told loses nothing if each call pushes at most 2B + 1 messages |
| IngestBuffer.SharpBound | elephantbroker/pipelines/turn_ingest/buffer.py:86-101 | a limit per call is safe for all runs if and only if it is at most 2B + 1 |
| RecentFacts.LoadAfterScrubs | elephantbroker/pipelines/turn_ingest/buffer.py:125-162 | after an update and any scrubs a load returns the kept entries whose id was not scrubbed, in order, and an empty list when the scrubs have deleted the key |
| RecentFacts.RecentFactsStore.UpdateRecentFacts | elephantbroker/pipelines/turn_ingest/buffer.py:134-143 | replaces the window by the last entries, or by all of them for a limit of 0 |
| RecentFacts.RecentFactsStore.ScrubFactFromRecent | elephantbroker/pipelines/turn_ingest/buffer.py:30-54 | one atomic step to the scrubbed window, answering the count; other sessions are untouched |
| RecentFacts.ScrubExact | elephantbroker/pipelines/turn_ingest/buffer.py:30-54 | removes every entry with the id and no other, keeps the order, and answers the exact number removed; deletes the key when nothing is left and when the value is neither array nor object |
| RecentFacts.ScrubsCommute | elephantbroker/pipelines/turn_ingest/buffer.py:145-162 | scrubs of any ids commute, and for different ids neither changes the other's count |
| RecentFacts.SplitScrubLosesRemoval | elephantbroker/pipelines/turn_ingest/buffer.py:145-162 | with separate GET and SET two overlapping scrubs bring an id back, which the atomic script cannot |
| RecentFacts.ScrubbedStaysOut | elephantbroker/pipelines/turn_ingest/pipeline.py:145-148 | from any window within the limit: a scrubbed id stays out in every continuation that does not store it again if and only if no turn in flight had loaded it |
| RecentFacts.RunBounded | elephantbroker/pipelines/turn_ingest/buffer.py:134-143 | with a positive limit neither the window nor what a turn has loaded ever exceeds it, in any interleaving of turns and scrubs |
| RecentFacts.LimitKept | elephantbroker/pipelines/turn_ingest/buffer.py:139 | every run from an empty store ends within the limit if and only if the limit is positive; with limit 0 a single stored fact exceeds it |
| RecentFacts.WindowOfTurns | elephantbroker/pipelines/turn_ingest/buffer.py:134-143 | over any number of turns the window is the end of everything ever stored: the last entries up to a positive limit, and all of them without a bound for limit 0 |
| RecentFacts.UndisturbedTurn | elephantbroker/pipelines/turn_ingest/pipeline.py:394-403 | a turn leaves the last entries of old ++ stored up to a positive limit, and old ++ stored whole for limit 0 |
| RecentFacts.RecordTurn | elephantbroker/pipelines/turn_ingest/pipeline.py:340-376 | the stored entries, the superseded ids and both counters; only facts of the loaded window are superseded, and never more than were stored |
| RecentFacts.StoredExactly | elephantbroker/pipelines/turn_ingest/pipeline.py:394-399 | the entries stored are the accepted facts in order, each under the id it was given |
| RecentFacts.DecayedExactly | elephantbroker/pipelines/turn_ingest/pipeline.py:229-235 | the superseded ids are, for the accepted facts in order, those at their index in the loaded window when the index is in range and the entry has an id |
| RedisKeys.GatewaysIsolated | elephantbroker/runtime/redis_keys.py:34-137 | two gateways share no key, for any families and arguments, if and only if they differ and neither id extends the other by a colon |
| RedisKeys.ColonFreeGatewaysIsolated | elephantbroker/runtime/redis_keys.py:34-137 | gateway ids without colons never share a key |
| RedisKeys.CollisionWitness | elephantbroker/runtime/redis_keys.py:110-111 | an agent id in an approval key can carry the rest of a longer gateway id |
| RedisKeys.EmbeddingCacheSeparate | elephantbroker/runtime/redis_keys.py:134-137 | a colon-free gateway meets the global embedding cache keys if and only if it is called like that cache |
| RedisKeys.KeysInjective | elephantbroker/runtime/redis_keys.py:42-129 | within a gateway a key tells its family and arguments, colons in the session key included, when the session id has none |
| RedisKeys.SingleTexts | elephantbroker/runtime/redis_keys.py:42-119 | the text of the families with one argument |
| RedisKeys.ScopedTexts | elephantbroker/runtime/redis_keys.py:60-117 | the text of the session-scoped families |
| RedisKeys.OtherTexts | elephantbroker/runtime/redis_keys.py:110-129 | the text of the approval families and of the two locks |
| RedisKeys.SessionIdsConfusable | elephantbroker/runtime/redis_keys.py:60-61 | two session ids can meet in a family if and only if one ends in a colon and the other |
| RedisKeys.ApprovalMeetsSession | elephantbroker/runtime/redis_keys.py:110-114 | an approval key is also a key of a session family if and only if the agent is called like the family |
| RedisKeys.OnlyItself | elephantbroker/runtime/redis_keys.py:63-69 | a colon-free text in a pattern matches itself and nothing else if and only if it holds no `*`, `?` or `[` and no backslash before its last character |
| RedisKeys.SnapshotScan | elephantbroker/runtime/redis_keys.py:63-69 | for a literal gateway id the snapshot scan finds exactly the snapshot keys of its session id, among all keys of the gateway, if and only if the session id holds nothing special to the pattern |
| RedisKeys.GuardHistoryScan | elephantbroker/runtime/redis_keys.py:102-108 | for a literal gateway id the guard-history scan finds exactly the guard-history keys of the gateway |
| RedisKeys.ScanStaysInGateway | elephantbroker/runtime/container.py:119-130 | either scan finds no key of another gateway if and only if the gateway id holds neither wildcard nor backslash, for ids without colon and bracket |
| RedisKeys.Redis.ExpireAll | elephantbroker/runtime/redis_keys.py:140-182 | refreshes exactly the given keys that exist and counts them |
| RedisKeys.Redis.TouchSessionKeys | elephantbroker/runtime/redis_keys.py:140-182 | refreshes exactly the session's keys and the parent's children set, and answers how many session keys existed |
| RedisKeys.TouchExactly | elephantbroker/runtime/redis_keys.py:140-182 | a touch refreshes a key if and only if it is one of the nine session-scoped keys or the goals of the session, or for a subagent its parent entry or the children set of the parent that the entry names |
| RedisKeys.TouchStaysInSession | elephantbroker/runtime/redis_keys.py:140-182 | a touch refreshes no session-scoped key of another session |
| Envelope.FindBelow | openclaw-plugins/shared/envelope.ts:43-44 | the match that the greedy expression prefers: the last newline, then the longest marker |
| Envelope.RoundTrip | openclaw-plugins/shared/envelope.ts:38-45 | stripping a wrapped text yields the trimmed text if and only if the text holds no marker of its own |
| Envelope.MarkerExactly | openclaw-plugins/shared/envelope.ts:43 | a marker is a newline, an opening bracket, at least one character up to the next closing bracket, white space and at least one more character |
| Envelope.SpacesDiffer | openclaw-plugins/shared/envelope.ts:41-44 | white space as trimmed here and as trimmed by the runtime differ in exactly six characters |
| Whitespace.TrimExactly | openclaw-plugins/shared/envelope.ts:41-44 | trimming cuts white space off both ends, all of it, and nothing else |
| Envelope.PlainPromptOnlyTrimmed | openclaw-plugins/shared/envelope.ts:40-44 | a prompt without the prefix, or without a marker, is only trimmed |
| ConfigOverrides.SetCommutes | elephantbroker/schemas/config.py:666-676 | updates along paths of which neither is a prefix of the other commute |
| ConfigOverrides.GetSet | elephantbroker/schemas/config.py:666-676 | an updated path reads back its value |
| ConfigOverrides.GetSetApart | elephantbroker/schemas/config.py:666-676 | a path apart from the updated one keeps what it had |
| ConfigOverrides.OrderDoesNotMatter | elephantbroker/schemas/config.py:688-701 | prefix-free settings give the same data in every order |
| ConfigOverrides.ReadsBack | elephantbroker/schemas/config.py:688-701 | after all of them every set path reads its value and every path apart from them is untouched |
| ConfigOverrides.CoerceExactly | elephantbroker/schemas/config.py:651-663 | texts stay, an empty optional text is none, numbers are parsed, and a boolean is true for exactly four words in any case between white space |
| ConfigOverrides.TruthyExactly | elephantbroker/schemas/config.py:726-745 | the values that count as empty |
| EnvBindings.RegistrySettings | elephantbroker/schemas/config.py:516-648 | in the whole registry no bound path is a prefix of another, for the settings of any environment |
| EnvBindings.OverridesAreOrderIndependent | elephantbroker/schemas/config.py:516-701 | the registry's overrides give the same data in every order, read back, and leave all other paths alone |
| EnvBindings.LoadingIsIdempotent | elephantbroker/schemas/config.py:843-845 | overrides, inheritance and path normalising: loading the loaded data again in the same environment changes nothing |
| ConfigLoading.ConfigData.ApplyEnvOverrides | elephantbroker/schemas/config.py:688-701 | fails exactly when a set variable cannot be coerced, with the settings before it applied; otherwise every set binding is applied |
| ConfigLoading.ConfigData.ApplyInheritanceFallbacks | elephantbroker/schemas/config.py:704-745 | the in-place steps have the specified effect on the data |
| ConfigLoading.ConfigData.NormalizeSqliteDbPaths | elephantbroker/schemas/config.py:748-757 | the loop over the audit paths has the specified effect on the data |
| ConfigLoading.LoadingTwice | elephantbroker/schemas/config.py:666-757 | loading is idempotent for any prefix-free settings and any steps that do not write behind each other |
| ConfigLoading.InheritedKeys | elephantbroker/schemas/config.py:704-745 | each consumer ends with its own key, else the LLM key, else the embedding key; the compaction endpoint falls back to the LLM endpoint |
| ConfigLoading.InheritanceExactly | elephantbroker/schemas/config.py:704-745 | each consumer ends with the first set value of its chain, and with what it has itself when none is set |
| ConfigLoading.InheritanceFrame | elephantbroker/schemas/config.py:704-745 | inheritance leaves every other path alone |
| ConfigLoading.NormalisingExactly | elephantbroker/schemas/config.py:748-757 | each of the seven database paths that is set becomes its expanded path, below the state directory unless absolute; an empty one stays |
| ConfigLoading.NormalisingFrame | elephantbroker/schemas/config.py:748-757 | normalising leaves every other path alone |
| ConfigLoading.InheritanceKeepsValues | elephantbroker/schemas/config.py:704-745 | inheritance never replaces a non-empty value anywhere in the data |
| ConfigLoading.PipelineSpreadOut | elephantbroker/schemas/config.py:704-757 | no step of the pipeline writes what an earlier one wrote or read |
| ConfigOverrides.DotsAllowed | elephantbroker/schemas/config.py:753-757 | what is required of the path operations holds of operations that collapse an empty or dot path to the state directory |
| GoalForest.AllGoals | elephantbroker/schemas/goal.py:51-56 | the roots followed by every child list |
| GoalForest.DepthFirstPermutes | elephantbroker/schemas/goal.py:65-74 | with unique ids the walk ends, yields each goal that a root leads to exactly once, and is a permutation of all goals if and only if every child list belongs to a listed goal and no goal is its own ancestor |
| GoalForest.UniqueIdsEnd | elephantbroker/schemas/goal.py:65-74 | with unique ids the recursion ends, even when unreachable goals form a cycle |
| GoalForest.ParentsFirst | elephantbroker/schemas/goal.py:70-74 | every yielded goal is a root or comes after a goal that lists it |
| GoalForest.DepthFirstOrder | elephantbroker/schemas/goal.py:65-74 | the recursive walk is the one with an agenda that puts the children of a yielded goal at the front, and no other sequence is |
| GoalForest.ListedExactly | elephantbroker/schemas/goal.py:51-56 | where each child list stands among all goals |
| TraceGroups.GroupEventsByTurn | elephantbroker/api/routes/trace.py:131-158 | the groups concatenate to the sorted events and are numbered from 0; every group but the last ends in the boundary type, which occurs nowhere else in a group |
| TraceGroups.CountKinds | elephantbroker/api/routes/trace.py:59-61 | the counting loop yields the tally |
| TraceGroups.TallyCorrect | elephantbroker/api/routes/trace.py:59-61 | the tally holds for each type its number of occurrences |
| TraceGroups.TimelineMatchesSummary | elephantbroker/api/routes/trace.py:131-172 | the counts of the groups of a timeline add up to the summary's counts, type by type |
| TraceGroups.TurnCountMatches | elephantbroker/api/routes/trace.py:78 | the summary's turn count is the number of finished groups of the timeline if and only if a turn was completed or nothing was flushed; on flushes alone the count is 0 and each flush finishes a group |
| TraceGroups.SortedByTime | elephantbroker/api/routes/trace.py:131-140 | the events are sorted by time as a stable permutation |

## Left out

- HTTP routes, command line, health probes, metrics and trace emission: they only pass values on.
- Graph, vector and relational stores and language models: a model's answer is an arbitrary optional text, the outcome of storing a fact a parameter, a content hash an injective function.
- Guard engine, scoring, retrieval, consolidation and authority checks: not needed by the properties above.
- Time to live, wall-clock time and background tasks: Redis keys do not expire in the lifecycle model; the time of a batch evaluation is a parameter.
- Swallowed exceptions of the lifecycle methods: the model follows the path without failures.
- The regular expressions for phatic texts, decisions and evidence, and the stop-word table: functions of a text that are left open.
- Message content is plain text; multi-part content is not modelled.
- Lifecycle.ContextLifecycle.Assemble: does not build the working set or the prompt text; the snapshot's item ids and the session's goals are parameters, and the text is the matter of `Assembler`.
- Lifecycle.ContextLifecycle.AfterTurn: does not scan for successful use or goal progress, which change facts and goals but not the record; the signalled response boundary is left out, the derived one is `ExtractResponseDelta`.
- Lifecycle.ContextLifecycle.Compact: takes the engine's answer to be its trigger; the engine's own effect is proved in `Compaction`.
- Lifecycle.ContextLifecycle.Bootstrap: profile resolution, labels, guard loading and the parent mapping are not modelled; restoring from a prior session clears maps that are already empty.
- The remaining lifecycle methods (subagent packets, overlay building, conversation deduplication) would add reads only.
- ConfigLoading.ConfigData.ApplyEnvOverrides: nested dictionaries are values of the one field, so two names for the same sub-dictionary are not captured; number parsing is a parameter.
- ConfigLoading.ConfigData.NormalizeSqliteDbPaths: expanding and joining paths are parameters; required of them is that joining to the state directory gives an absolute path and that expanding an absolute result changes nothing; an expansion that fails for an unknown user is not modelled.
- RedisKeys.ScanStaysInGateway: gateway ids with a bracket, which the start-up check rejects, are not covered.
- SessionInterleaving.TurnsLostExactlyWhenLate: both directions are stated for overlapping turns; with other calls in the mix a late save of another kind can hide a loss again, so for those `NothingLateNothingLost` states one direction.
