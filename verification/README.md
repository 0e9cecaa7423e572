# droidcli: a verified model of the agent daemon's core

droidcli is an agent daemon: a model provider proposes tool calls, the host runs the harmless ones
and holds the others until a person approves them, and everything it stores or exchanges is text in
a JSON dialect with a hand-written codec and no parser. This project models that core in Dafny and
proves what holds of it for all inputs and in all runs.

* **The JSON codec** (`text`, `json`, `json_tokens`, `json_lookup`, `json_lens`, `json_document`,
  `json_texts`).
  A field is found by searching for `"key":`. String values routinely hold whole documents, so the
  question is why text inside a value is never mistaken for a field. The answer, proved here: after
  escaping, every quote inside a value follows a backslash, so the search text occurs exactly where
  a key stands. The escapes are the subset `\" \\ \n \r \t` of section 7 of RFC 8259.
* **The brace-depth array walker and its users** (`brace_walker`, `agent_response`,
  `chat_completion`, `task_json`, `connectors`). The walker ignores quoting; each splitting theorem
  is an if-and-only-if with brace balance. What is still read when an object does not balance is
  exact too: `brace_scan` and `cut_objects` in general, `reply_text`, `cut_calls`, `shown_actions`,
  `shown_tasks` and `restored_registry` for each reader.
* **The agent-turn protocol**: `agent_protocol` is the specification, `agent_host` the object that
  changes its fields, `agent_runs` what one call does, `agent_outcomes` which replies, calls and
  arguments it does it with, `agent_safety` approvals over whole runs,
  `agent_mirror` the transcript against the stored rows, `agent_witness` runs in which a law fails.
  Provider, tools, precheck and reply templates are oracles that may differ from call to call; a call
  is one atomic step. `log` and `posts` are history variables: they index the oracles and are what
  the theorems speak about.
* **The path guards and what is approved** (`path_guards`, `path_outcomes`, `approval_paths`,
  `launch_resolution`, `launch_trust`).
* **The task queue** (`task_queue`, `task_outcomes`, `task_runs`, `task_tick`), with the clock as a value.
* **Smaller state machines**: `media_store`, `media_outcomes`, `language_runtime`, `settings`,
  `settings_file`, `connectors`, `connector_outcomes`.

The files that end in `_outcomes`, and `json_texts`, `launch_trust` and `settings_file`, say what an
operation does to its input or state in terms of characters, fields and texts alone; the other theorems
say what follows from it over runs, round trips and further runs.

Where the source changes things step by step, so does the model: classes with the same fields, loops
with invariants. Each such method is proved equal to a specification function, and the theorems are
about those functions. A `string` is a sequence of bytes. Where the source would throw because a
number is out of range, the model has a result of its own.

## Where the code and its documentation differ

* `cli/host.hpp:221-222` and `src/app/tasks.hpp:22-23` call cancelling the way to stop a recurring
  task for good. Completion and failure never look at the status, so cancelling the recurring task in
  flight is undone when its run ends (`CancelUndoneExactly`, `CancelledRunIsUndone`).
* The task loop looks for `"success":true`, which launching and stopping never print; such tasks
  always count as failed (`LaunchAndStopAlwaysFail`).
* `cli/host.cpp:2087-2088` and `ARCHITECTURE.md:937` call the approved launch target already verified.
  The registry and installed-index tiers are not checked to exist, and a bare name is resolved afresh
  at execution (`BareTargetMayChange`); the exact condition, for every resolved call, is in
  `ApprovedIsLaunched`.
* `cli/host.cpp:3298-3301` and `cli/host.hpp:553-559` say the stored token is carried over exactly. When
  decryption fails it is written back empty (`PersistCarriesOver`, `ForeignSecretIsLost`).
* A connector's `capabilities` are written as an array and read as a string, so they are lost
  (`ConnectorReadsBack`).

Other laws that hold only under a condition, with the exact condition and a reachable failure:

* The desktop substitution can be repeated without effect only on stable desktop paths, and a working
  directory resolved twice only on those or on placeholder-like ones (`RepeatableExactlyWhenStable`,
  `WorkDirResolvesOnceExactly`, `MovedDesktopIsUnstable`).
* The command text a person approves is the one that runs only if it holds no bare desktop token; the
  tool replaces those (`ApprovedCommandIsRunExactly`, `ApprovedCommandMayChange`).
* A reply is cut at the brace that brings the depth of its printed choice to zero, so it is read whole
  exactly when no proper prefix of it does that (`ReplyReadExactly`, `SayingReadExactly`,
  `ReplyIsCutShort`). A text may hold unpaired braces and still be read whole. Tool calls, the records
  shown by the UI, tasks and saved connectors obey the same law (`FirstCallReadExactly`,
  `FinalShownExactly`, `LastTaskShownExactly`, `RegistryRestoredExactly`), each with its failures
  (`WrittenContentIsCut`, `StrayBraceHidesTheRest`, `DisabledComesBackEnabled`).
* A due task is claimed after the one-shot tasks ahead of it, but a recurring task ahead can keep it
  waiting for ever (`DueTaskIsReached`, `RecurringTaskStarves`).
* Repeating an approval is harmless unless the first one's automatic retry proposed another call, which
  the repetition then decides (`RepeatedDecisionChangesNothingExactly`, `RepeatedApprovalRunsAgain`).
* A decision for a call of another than the current session is recorded in the wrong transcript
  (`DecisionMirrorsExactly`, `StrayDecisionIsReachable`).

## Model

| member | source | states |
|---|---|---|
| `JsonCodec.EscapeJsonString` | src/net/json.cpp:5-34 | The escaping loop computes the character-wise escaping of its input |
| `JsonCodec.ExtractJsonStringField` | src/net/json.cpp:46-110 | The cursor loop returns the first field's decoded string: "" when the key is absent or no string stands there, the rest of the text when the closing quote is missing |
| `JsonCodec.ExtractJsonBoolField` | src/net/json.cpp:112-143 | The same for a boolean; nothing when neither literal stands there |
| `JsonCodec.ExtractJsonIntField` | src/net/json.cpp:145-181 | The same for a 64-bit integer, with an out-of-range number told apart (the original throws) |
| `JsonCodec.EscapedQuotes` | src/net/json.cpp:5-34 | After escaping, every quote follows a backslash: the invariant that keeps values closed |
| `JsonCodec.DecodeEscaped` | src/net/json.cpp:65-107 | Decoding an escaped value gives the value back and stops right behind its closing quote, whatever follows |
| `JsonCodec.IntReadBack` | src/net/json.cpp:145-181 | Every 64-bit integer as printed reads back, whatever non-digit follows |
| `JsonCodec.ReplaceJsonStringFieldValue` | cli/host.cpp:416-454 | The in-place rewriter replaces exactly the characters of the first field's string value, or nothing |
| `JsonTexts.PaddedTextIsRead` | src/net/json.cpp:46-110 | A text behind any blanks and tabs is read, whatever it says and whatever follows it |
| `JsonTexts.PaddedFlagIsRead` | src/net/json.cpp:112-143 | So is a flag |
| `JsonTexts.PaddedNumberIsRead` | src/net/json.cpp:145-181 | So is every number that fits in 64 bits; one that does not is told apart |
| `JsonTexts.PaddedTextIsReplaced` | cli/host.cpp:416-454 | The rewriter replaces exactly such a text and keeps the blanks |
| `JsonTexts.OtherValueIsNotRead` | src/net/json.cpp:57-70 | A value of another kind reads as no text, no flag or no number, and is not replaced |
| `JsonTexts.MissingKeyReadsNothing` | src/net/json.cpp:46-56 | A key that is nowhere in the text reads as nothing and replaces nothing |
| `JsonTexts.EscapeStandsFor` | src/net/json.cpp:65-107 | What any escape stands for, also one the printer never writes |
| `JsonTexts.OpenTextIsRead` | src/net/json.cpp:65-107 | A text whose closing quote is missing is read to its end |
| `JsonTokens.NoneInsideString` | src/net/json.cpp:5-39 | The search text `"key":` never begins inside a string value, even one holding that very text, quotes, backslashes or whole documents |
| `JsonTokens.OccursOnlyAtKeys` | src/net/json.cpp:36-52 | In a printed document the search text occurs at a position if and only if that key stands there |
| `JsonLookup.FindKey` | src/net/json.cpp:46-56 | The text search returns the position of the first such key in reading order, or nothing when there is none |
| `JsonLookup.StringLookup` | src/net/json.cpp:46-110 | Looking up a string in any well-formed document, blanks included, yields the value behind the first such key, and "" for an absent key |
| `JsonLookup.BoolLookup` | src/net/json.cpp:112-143 | The same for booleans, with failure exactly when no boolean is there |
| `JsonLookup.IntLookup` | src/net/json.cpp:145-181 | The same for integers |
| `JsonLens.ReplaceIsPut` | cli/host.cpp:416-454 | On every well-formed document the text rewriter equals replacing one value token and printing again, a key standing where the value should be included |
| `JsonLens.PutGet` | cli/host.cpp:416-454 | What was put is what is read |
| `JsonLens.PutFrame` | cli/host.cpp:410-415 | Every other key's value is untouched, unless a key itself stood in the place written to |
| `JsonLens.PutPut` | cli/host.cpp:416-454 | The last of two rewrites wins |
| `JsonLens.GetPut` | cli/host.cpp:416-454 | Writing back what was read changes nothing |
| `JsonLens.ReplaceIsLens` | cli/host.cpp:416-454 | All these laws for the texts themselves, through the program's own readers of every type |
| `JsonDocument.ReadBack` | src/net/json.cpp:46-181 | For any nested printed document and any identifier key, all three readers return exactly the first such member in reading order, at any depth |
| `JsonDocument.KeyIsFound` | cli/tui.cpp:502-505 | The search text of a key occurs in a printed document exactly when a member of that name exists, so presence tests are exact |
| `JsonDocument.TextOfFirst` | src/net/json.cpp:46-56 | The search lands where the whole printed value of the first such member follows |
| `BraceWalker.ScanOne` | src/ai/openai_compat_client.cpp:108-126 | The depth loop stops behind the brace closing the first one, or at the end; its unsigned depth never underflows |
| `BraceWalker.SplitFrom` | src/ai/openai_compat_client.cpp:91-128 | The outer loop terminates on every text and returns the objects in order |
| `BraceWalker.ExtractJsonObjectArray` | cli/tui.cpp:68-122 | Locating the array and splitting it; nothing when key or bracket is missing |
| `BraceWalker.BalancedIsClosing` | cli/tui.cpp:100-118 | Balanced by counting braces over all prefixes if and only if the running depth first closes at the very end |
| `BraceWalker.SplitExactly` | src/ai/openai_compat_client.cpp:83-130 | Behind `[`, any list of printed objects is split into exactly those objects if and only if each is brace-balanced |
| `BraceWalker.ArraySplitsExactly` | cli/tui.cpp:68-122 | The same for the first array of that name at any depth of any printed document |
| `BraceWalker.BraceIsSkipped` | src/app/tasks.cpp:209-226 | Lists printed without their opening `{` are split like complete ones |
| `JsonTexts.SpreadIsSplit` | src/ai/openai_compat_client.cpp:83-130 | Balanced objects are split the same whatever blanks, line ends and commas stand between them |
| `JsonTexts.OpenObjectIsTaken` | src/ai/openai_compat_client.cpp:108-126 | An object that never closes is taken to the end of the text |
| `BraceWalker.PairedEscaped` | cli/tui.cpp:100-118 | Escaping keeps braces paired |
| `BraceWalker.PrintPaired` | cli/tui.cpp:100-118 | A document whose string values pair their braces pairs its own, and an object among them is balanced |
| `BraceWalker.DocumentNeedNotPair` | cli/tui.cpp:100-118 | A proper document need not: `{"a":"}"}` closes one brace more than it opens |
| `AgentResponse.BuildFinalAgentResponse` | cli/host.cpp:3837-3868 | The streaming code prints exactly the document of a finished turn |
| `AgentResponse.BuildPendingToolCallResponse` | cli/host.cpp:3931-3983 | The streaming code prints exactly the document of a paused turn |
| `AgentResponse.ParseAgentTurnResponse` | cli/tui.cpp:448-524 | The reading code, loops and slicing included, computes the specified result for every text |
| `AgentResponse.FinalReadBack` | cli/tui.cpp:448-524 | Whatever the texts contain, a finished response is read as finished: its session, no pending call, the lines of the split records and then the reply; the records are split exactly if and only if they balance |
| `AgentResponse.PausedSlice` | cli/tui.cpp:496-512 | From the pending call's key on, tool, arguments and flag are the pending call's, although later action records carry the same keys |
| `AgentResponse.PausedReadBack` | cli/tui.cpp:448-524 | Whatever the texts contain, a paused response is read as paused with exactly the waiting call; the actions as for a finished one |
| `AgentResponse.ErrorReadBack` | cli/tui.cpp:462-469 | An error response is read as one error line with its session and no pending call, whatever its text contains |
| `PrintedOutcomes.ProposalIsShown` | cli/tui.cpp:496-512 | The exact lines shown for a waiting call, whatever its texts contain |
| `PrintedOutcomes.ExecutedCallIsShown` | cli/tui.cpp:480-524 | The exact lines shown for one executed call and the reply, when the record balances |
| `AgentResponse.PairedActionsAreBalanced` | cli/host.cpp:3965-3981 | Action records whose texts pair their braces are balanced |
| `AgentResponse.UnpairedActionIsNotBalanced` | cli/tui.cpp:480-494 | A record whose texts' braces do not add up to zero is not balanced, even when its result is a proper document such as `{"a":"}"}` |
| `ShownActions.LinesRead` | cli/tui.cpp:480-494 | Behind balanced records, the line shown for the next one is made of as much of its texts as its own braces let through |
| `ShownActions.FinalShownExactly` | cli/tui.cpp:480-524 | When the records before the last one balance, the lines shown of a finished response are those of all records if and only if no proper prefix of the last record's texts closes its object |
| `ShownActions.PausedShownExactly` | cli/tui.cpp:480-524 | The same for a paused response |
| `ShownActions.RecordsBehindAreMissing` | cli/tui.cpp:480-494 | A record whose texts close its object exactly at their end is shown whole, and every record behind it is missing |
| `ShownActions.StrayBraceHidesTheRest` | cli/tui.cpp:480-494 | A witness: after reading a file that holds `{"a":"}"}`, its own line is right and the lines of all later calls are gone |
| `ChatCompletions.ParseOpenaiChatResponse` | src/ai/openai_compat_client.cpp:267-363 | The result for every status, body and transport flag: first choice only, nameless calls dropped, a number out of range thrown |
| `ChatCompletions.CallReadsBack` | src/ai/openai_compat_client.cpp:316-336 | A printed tool call reads back as itself: name and arguments are searched from the function member on, whatever the id and the texts contain |
| `BraceScan.PrintAlike` | src/ai/openai_compat_client.cpp:108-126 | A printed document opens and closes, at every depth, like its texts and object braces alone: escaping and punctuation do not matter to the walker |
| `CutObjects.TextReadExactly` | src/net/json.cpp:46-110 | Exactly what is read of a text, at any depth of the piece the walker takes of an object: nothing when the braces printed before it close, otherwise the text up to the brace that closes |
| `CutObjects.FieldReadExactly` | src/ai/openai_compat_client.cpp:83-130 | The same for the first object of every list of every printed document and every key, with the condition for reading the text whole |
| `CutObjects.MemberTextRead` | cli/tui.cpp:167-186 | For an object of texts, flags and numbers the same in terms of the texts printed before the member |
| `CutObjects.InnerTextRead` | src/ai/openai_compat_client.cpp:316-336 | The same for a text one object further in, searched from that object's key on |
| `CutObjects.ListPieces` | src/ai/openai_compat_client.cpp:83-130 | The walker's pieces of a list: the balanced objects, the piece of the first that may not balance, and what it still finds behind |
| `ChatCompletions.CompletionReadsBack` | src/ai/openai_compat_client.cpp:286-345 | For any printed completion: its choices split exactly if and only if they balance; then, if the calls balance too, model, text, finish reason and all named calls of the first choice are read whole |
| `PrintedOutcomes.CompletionIsReadWhole` | src/ai/openai_compat_client.cpp:286-363 | In a whole completion the reasoning is read under either of its two names, and both token counts; one without text and calls is reported |
| `CutCalls.CallPieceRead` | src/ai/openai_compat_client.cpp:316-336 | Exactly what is read of a call that need not balance: id, name and arguments up to the brace that closes what holds them |
| `CutCalls.FirstCallReadExactly` | src/ai/openai_compat_client.cpp:304-340 | Exactly what is read of the first call of any printed completion: none when the choice closes before its calls, otherwise the call as its own braces cut it, whatever cuts the choice behind it |
| `CutCalls.PlainCallReadExactly` | src/ai/openai_compat_client.cpp:316-336 | When id, kind and name hold no braces, the call is whole if and only if no proper prefix of its arguments closes two braces more than it opens |
| `CutCalls.WrittenContentIsCut` | src/ai/openai_compat_client.cpp:316-336 | A family of failures: file content with three unpaired closing braces ends the proposed arguments there |
| `ChatCompletions.PairedCompletionIsWhole` | src/ai/openai_compat_client.cpp:83-130 | Texts that pair their braces make choices and calls balanced |
| `BraceScan.DecodeOfScan` | src/ai/openai_compat_client.cpp:20-75 | Cutting an escaped text where the brace scan stops and decoding what is left gives the text itself up to where the scan of the unescaped text stops |
| `ReplyTexts.ReplyReadExactly` | src/ai/openai_compat_client.cpp:286-310 | For any printed completion, exactly what is read of the first choice's text: nothing when the braces printed before it already close, otherwise the text up to the brace that brings the depth at its opening quote to zero; so a non-empty text is read whole if and only if nothing closes before it and no proper prefix of it closes |
| `ReplyTexts.SayingReadExactly` | src/ai/openai_compat_client.cpp:108-126 | A reply printed alone is read whole if and only if no proper prefix of it closes two more braces than it opens |
| `ReplyTexts.ReplyIsCutShort` | src/ai/openai_compat_client.cpp:108-126 | A family of failures: of a reply that goes on after two unpaired closing braces at its start, only those two are read |
| `PathGuards.SubstituteBareDesktopToken` | src/reliability/path_guards.cpp:21-65 | The scanner that grows and shrinks its result computes the recursive substitution |
| `PathOutcomes.HitsAreThese` | src/reliability/path_guards.cpp:21-65 | Which places of a text are rewritten, letter by letter: the word in any case, a slash behind it, the start or one of three characters before it |
| `PathOutcomes.TokenIsRewritten` | src/reliability/path_guards.cpp:21-65 | The text with its tokens replaced: each becomes the desktop path, its own slash and everything around it stay |
| `PathOutcomes.SlashIsDropped` | src/reliability/path_guards.cpp:33-58 | A slash, or a dot and a slash, before a token that begins the text goes with it |
| `PathOutcomes.PartsAreRewrittenApart` | src/reliability/path_guards.cpp:21-65 | Words are rewritten one by one: the result for a text in two parts is that of the parts |
| `PathGuards.UntouchedExactly` | src/reliability/path_guards.cpp:21-65 | A substitution leaves a text as it is, for every desktop path, if and only if no token begins a path in it except one already spelled as the desktop path, a leading token counted with the separator in front |
| `PathGuards.SecondRunKeeps` | src/reliability/path_guards.cpp:21-65 | On a stable desktop path a second substitution changes no input at all |
| `PathGuards.SecondRunGrows` | src/reliability/path_guards.cpp:21-65 | On any other desktop path but ".", substituting in the path followed by a slash changes it |
| `PathGuards.DotIsUnstable` | src/reliability/path_guards.cpp:21-65 | "." fails too, on two tokens in a row |
| `PathGuards.RepeatableExactlyWhenStable` | src/reliability/path_guards.cpp:21-65 | Substitution is idempotent on every input if and only if the desktop path is stable: empty, or not "." and with no token of its own except one it entirely consists of |
| `PathGuards.MovedDesktopIsUnstable` | src/reliability/path_guards.cpp:21-65 | The desktop path `D:\My Desktop\Desktop` is unstable: what a first run makes of `desktop/`, a second run changes |
| `PathGuards.DesktopIsKept` | src/reliability/path_guards.cpp:21-65 | A stable desktop path is left as it is |
| `PathGuards.FindSegment` | src/reliability/path_guards.cpp:106-128 | The scan finds a bounded occurrence of "desktop" if and only if there is one anywhere |
| `PathGuards.JumpLosesNothing` | src/reliability/path_guards.cpp:119-126 | No second occurrence can begin inside a match, so jumping past it is safe |
| `PathGuards.SegmentsAreBounded` | src/reliability/path_guards.cpp:106-126 | "desktop" is one of the segments between separators if and only if some occurrence passes the boundary test |
| `PathGuards.LooksLikeInventedDesktopPath` | src/reliability/path_guards.cpp:96-129 | True exactly when the desktop path is non-empty, the path does not begin with it in any letter case, and some segment equals "desktop" |
| `PathOutcomes.InventedAreThese` | src/reliability/path_guards.cpp:96-129 | Invented exactly when the path does not begin with the real desktop and some directory in it, bounded by slashes or ends, is called desktop |
| `PathOutcomes.PlaceholdersAreThese` | src/reliability/path_guards.cpp:82-94 | A placeholder exactly when one of eight words occurs at some place, in any letter case |
| `PathOutcomes.BareNameGoesToDesktop` | src/reliability/path_guards.cpp:67-80 | A bare file name is put on the desktop with one separator between; other paths stay |
| `ApprovalPaths.WorkDirResolvesOnce` | cli/host.cpp:1995-2007 | On a stable or placeholder-like desktop path resolving a resolved directory again changes nothing |
| `ApprovalPaths.WorkDirResolvesOnceExactly` | cli/host.cpp:1995-2007 | For every desktop path, resolving twice equals resolving once for all requested directories if and only if the path is stable or itself looks like a placeholder |
| `ApprovalPaths.ApprovedWorkDirIsUsed` | cli/host.cpp:2039-2050 | A working directory shown for run_command or run_ffmpeg is the one used at execution, and the rewriting of the proposal leaves the command text in it alone |
| `ApprovalPaths.ApprovedCommandIsRunExactly` | cli/host.cpp:1712-1732 | The command shown is the one requested, and a call is proposed exactly when that text is no placeholder; what runs is the approved text if and only if the substitution leaves that text alone |
| `ApprovalPaths.ApprovedCommandMayChange` | cli/host.cpp:1727-1727 | A witness: `del desktop/a.txt` is approved, and the same with the real desktop path is run |
| `ApprovalPaths.ShownFieldIsExecuted` | cli/host.cpp:3870-3895 | A path shown at approval is the absolute form of the path executed; a call its guards will reject is shown as given; other fields are untouched |
| `ApprovalPaths.ShownFieldIsDocument` | cli/host.cpp:3870-3895 | The shown text is again a well-formed document with all other keys as before |
| `ApprovalPaths.ShownPairIsExecuted` | cli/host.cpp:3901-3904 | copy_file and move_path: both shown paths are the absolute forms of the executed ones, although the second rewrite works on the first one's output |
| `PathOutcomes.ShownSingleIsExecuted` | cli/host.cpp:3870-3900 | The path shown for writing, deleting or creating is the absolute form of the one then used; a rejected call is shown as given |
| `PathOutcomes.CommandIsProposedAsGiven` | cli/host.cpp:2010-2050 | A command whose directory is missing or needs no change is proposed as it is |
| `LaunchResolution.RewrittenReadBack` | cli/host.cpp:2087-2102 | The rewritten call reads back as exactly what was resolved |
| `LaunchResolution.ApprovedIsLaunched` | cli/host.cpp:2106-2135 | For every resolved call, execution, on a machine that may have changed, launches the approved target, arguments, directory and display name if and only if the target is a path, still is a regular file, and is its own absolute form |
| `LaunchTrust.GivenPathDecides` | cli/host.cpp:1885-1905 | A given path alone decides what is proposed and launched; if it is no file the call fails |
| `LaunchTrust.RegistryDecides` | cli/host.cpp:1907-1914 | For a bare name with a registry answer that path is proposed and launched, whatever index, table and PATH answer |
| `LaunchTrust.IndexDecides` | cli/host.cpp:1916-1927 | With no registry answer the index decides, whatever table and PATH answer |
| `LaunchTrust.TableDecides` | cli/host.cpp:1929-1963 | With neither, the curated table decides, with its arguments only when the caller gave none, its display name, and a failure when the executable is missing |
| `LaunchTrust.PathDecidesLast` | cli/host.cpp:1965-1993 | PATH counts only when all three are silent; when it is silent too the call fails |
| `LaunchResolution.ShownLaunchIsExecuted` | cli/host.cpp:3906-3927 | The path shown for an application is the absolute form of the resolved target, the other fields are shown as they are used, and execution launches the very path shown if and only if the target is a path that still is a regular file with that absolute form |
| `LaunchResolution.BareTargetMayChange` | cli/host.cpp:1907-1927 | A witness: a tier yields a bare name, and the same machine then launches something else than was approved |
| `AgentHosts.AgentHost.RecordAgentMessage` | cli/host.cpp:3985-3991 | Appends to the transcript and stores one row numbered by the transcript's length |
| `AgentHosts.AgentHost.ClassifyViaLlm` | cli/host.cpp:3526-3661 | The retry loop: decision and number of posts as specified, nothing else changed |
| `AgentHosts.AgentHost.PhraseResult` | cli/host.cpp:3771-3823 | Template, else one post, else a fixed sentence; nothing recorded |
| `AgentHosts.AgentHost.ExecuteDecisionOrPause` | cli/host.cpp:3663-3707 | Runs a read-only call, refuses a checked one, or fills the pending slot |
| `AgentHosts.AgentHost.FinishTurnAfterExecution` | cli/host.cpp:3709-3769 | One bounded retry, then the one assistant message |
| `AgentHosts.AgentHost.SelectSession` | cli/host.cpp:3321-3346 | Starting, resuming (the replay loop) or keeping a session |
| `AgentHosts.AgentHost.AbandonWaitingCall` | cli/host.cpp:3363-3382 | A waiting call of this session is dropped, with a note, when a message arrives |
| `AgentHosts.AgentHost.OpenTurn` | cli/host.cpp:3393-3426 | The system prompt on an empty transcript, then the user's message |
| `AgentHosts.AgentHost.Respond` | cli/host.cpp:3442-3473 | The branch on the classification |
| `AgentHosts.AgentHost.TakeTurn` | cli/host.cpp:3314-3474 | The whole turn: new state and response equal those of the specification the theorems below are about |
| `AgentHosts.AgentHost.TakeDecision` | cli/host.cpp:3476-3523 | The whole decision likewise |
| `AgentHosts.AgentHost.DeleteStoredSession` | cli/host.cpp:4050-4071 | Deleting a session likewise |
| `ChatRoles.RoleReadsBack` | src/ai/types.cpp:5-37 | A stored role name reads back as the role |
| `AgentRuns.ExecuteOrPauseDoes` | cli/host.cpp:3663-3707 | Either one Tool message and one event, an execution or a refusal, which determines the message and the new action: name, arguments and result of running that very call at that place in the log; or nothing recorded and exactly the proposed call waiting |
| `AgentRuns.FinishDoes` | cli/host.cpp:3709-3769 | The roles recorded have one of four shapes; at most one more execution or refusal and four posts (one without retry); the new actions and the tool messages are those the logged events determine |
| `AgentRuns.TurnDoes` | cli/host.cpp:3314-3474 | Every turn, for every outcome: its new actions and tool messages are determined by the events it logged (an execution at position n by running that call there, a refusal by its failure), its roles follow a fixed grammar, and the call answered with is the call that waits |
| `AgentRuns.DecisionDoes` | cli/host.cpp:3501-3523 | The same for every matched decision, on top of the actions before the proposal; a decline puts its refusal text on record and nothing else but the reply |
| `AgentOutcomes.HeardDecides` | cli/host.cpp:3552-3598 | The reply taken is the first that says something, or the third, and this many requests have then been posted |
| `AgentOutcomes.PlainReplyIsAnswered` | cli/host.cpp:3442-3453 | A reply without a call is recorded and answered word for word, an empty one as a fixed text; nothing else changes but what opens a turn |
| `AgentOutcomes.FailedReplyIsAnswered` | cli/host.cpp:3436-3446 | A failed reply answers its error, or a fixed one, with the session; only the opening is recorded |
| `AgentOutcomes.ChosenCallWaits` | cli/host.cpp:3663-3693 | The first call of the reply heard, if it needs approval, waits with the arguments the check let through; nothing runs |
| `AgentOutcomes.ChosenCallSettles` | cli/host.cpp:3694-3706 | If it does not, or is refused by the check, it runs with its own arguments at that place of the log, and its result is on record before anything follows |
| `AgentOutcomes.RetryRuns` | cli/host.cpp:3727-3769 | A failed call of the nine retriable tools is followed by the note, the result of the call chosen again, and the wording of that second result |
| `AgentOutcomes.RetryProposesAnother` | cli/host.cpp:3727-3747 | If the call chosen again needs approval it waits, with the failed one among its actions |
| `AgentOutcomes.RetryGivesUp` | cli/host.cpp:3748-3769 | If nothing is chosen again, the first failure is told after the note |
| `AgentOutcomes.FinishesAtOnce` | cli/host.cpp:3709-3769 | A successful, declined or not retriable call is told at once: template, else the provider's words, else a fixed sentence |
| `AgentOutcomes.DecisionSettles` | cli/host.cpp:3476-3523 | An approved call runs with exactly the arguments that waited, a declined one has the refusal as its result; it is on record with the earlier actions before anything follows |
| `AgentOutcomes.DeclineReads` | cli/host.cpp:3501-3504 | What a decline says, as the readers find it |
| `AgentOutcomes.OpeningBecomes` | cli/host.cpp:3348-3426 | What is recorded before the provider is asked: the note about an abandoned call, or else the prompt of an empty conversation, and the message |
| `AgentOutcomes.SessionIsChosen` | cli/host.cpp:3321-3346 | Which conversation a message continues; a resumed one consists of the stored rows of that session by ascending hop number, equal ones in stored order |
| `AgentRuns.TurnIsBounded` | cli/host.cpp:3314-3474 | At most two executions and seven posts; exactly one assistant message, last, when the turn finishes, none otherwise |
| `AgentRuns.DecisionIsBounded` | cli/host.cpp:3476-3523 | At most two executions and four posts when approved, no execution and one post when declined; the one assistant message as for turns |
| `AgentSafety.StepAgrees` | cli/host.cpp:3663-3707 | Every turn, decision and deletion keeps the pending slot in agreement with the events, and every event legal |
| `AgentSafety.GatedCallWasProposedAndApproved` | cli/host.cpp:463-478 | In every run a gated call executes only approved, is the very call last proposed (name and arguments), and in between only read-only calls ran or gated ones were refused |
| `AgentSafety.EachApprovalExecutesOnce` | cli/host.cpp:3493-3499 | Between two approved executions lies the second one's own proposal |
| `AgentSafety.ApprovalsAreExecutions` | cli/host.cpp:3476-3504 | Over every run the approved executions are, one to one and in order, the calls waiting at the matching approvals |
| `AgentSafety.DecisionPausesExactly` | cli/host.cpp:3727-3747 | A decision is answered by another proposal if and only if it approves, the execution fails, the tool is retriable, and the one retry chooses a gated call that the precheck lets through |
| `AgentSafety.RepeatedDecisionChangesNothingExactly` | cli/host.cpp:3486-3499 | Repeating a decision changes nothing if and only if the first was not answered by another proposal, in terms of the answer and of the guards |
| `AgentWitnesses.RepeatedApprovalRunsAgain` | cli/host.cpp:3727-3747 | A run from the first state in which an approval sent twice executes twice: the failed call's retry proposes again |
| `AgentSafety.AnsweredDecisionSettles` | cli/host.cpp:3486-3499 | After a reply any further decision is refused and changes nothing |
| `AgentSafety.DeclineExecutesNothing` | cli/host.cpp:3516-3523 | A decline executes nothing, never retries, and always ends in a reply |
| `AgentSafety.TurnIsShownAsItIs` | cli/tui.cpp:448-524 | The printed answer of a turn, read back by the UI, asks for approval exactly when the turn stopped to wait, and names the waiting call with its displayed arguments and session |
| `AgentSafety.DecisionIsShownAsItIs` | cli/tui.cpp:448-524 | The same for the answer of a decision, whose retry may stop to wait for another call |
| `AgentMirror.RecordingHereMirrors` | cli/host.cpp:3985-3991 | Recording for the current session keeps the transcript equal to the stored rows and all numbering gapless |
| `AgentMirror.ResumingMirrors` | cli/host.cpp:3331-3344 | Resuming replays exactly the stored messages, in hop order, roles included |
| `AgentMirror.SwitchMirrorsExactly` | cli/host.cpp:3321-3346 | Switching keeps the mirror if and only if a cleared session's new id has no rows yet |
| `AgentMirror.DecisionMirrorsExactly` | cli/host.cpp:3493-3509 | A matched decision keeps the mirror if and only if the decided call belongs to the current session |
| `AgentWitnesses.StrayDecisionIsReachable` | cli/host.cpp:3338-3345 | A run from the first state in which the waiting call belongs to another session than the current one, and deciding it, naming no session, breaks the mirror |
| `AgentMirror.DeletionMirrorsExactly` | cli/memory_store.cpp:181-204 | Deletion empties one session, leaves every other session's rows alone, and keeps the mirror exactly when a new session's id is unused |
| `AgentMirror.NumberedIsSorted` | cli/memory_store.cpp:142-178 | Rows numbered 0, 1, 2, ... are already in the order the query returns them |
| `AgentMirror.FirstStateMirrors` | cli/host.cpp:3985-3991 | A host that starts with an unused session id over any gaplessly numbered store satisfies the mirror |
| `AgentMirror.RunMirrors` | cli/host.cpp:3985-3991 | In every run with an open store, unused new ids and decisions for the current session, the transcript equals the current session's rows in hop order and every session is numbered exactly 0..n-1 |
| `Tasks.TaskQueue.Enqueue` | src/app/tasks.cpp:29-46 | Stamps, appends and trims |
| `Tasks.TaskQueue.ClaimNext` | src/app/tasks.cpp:48-72 | Claims the first due pending task, and only that |
| `Tasks.TaskQueue.Complete` | src/app/tasks.cpp:74-101 | Ends or reschedules the named task whatever its status, then trims |
| `Tasks.TaskQueue.Fail` | src/app/tasks.cpp:103-128 | The same for a failure |
| `Tasks.TaskQueue.Cancel` | src/app/tasks.cpp:130-147 | Cancels a task that has not ended, or changes nothing |
| `Tasks.TaskQueue.TrimHistory` | src/app/tasks.cpp:166-187 | The erasing loop computes the specified trimming |
| `Tasks.TrimDropsEarliest` | src/app/tasks.cpp:166-187 | Exactly the earliest min(excess over 256, number of ended) ended tasks go; all others stay in order |
| `TaskOutcomes.CompletionRecords` | src/app/tasks.cpp:74-101 | A completed one-shot task is done and a recurring one pending a recurrence later, with the result; nothing else of it and no other task changes, and of more than 256 only ended tasks may go |
| `TaskOutcomes.FailureRecords` | src/app/tasks.cpp:103-128 | The same for a failure: failed, or pending again, with the error |
| `TaskOutcomes.CancellationStops` | src/app/tasks.cpp:130-147 | A pending or running task is cancelled, an ended one stays; no other task changes |
| `TaskOutcomes.FirstDueIsClaimed` | src/app/tasks.cpp:48-72 | The first pending task whose time has come is running, claimed once more; the others stay |
| `TaskOutcomes.SubmissionIsLast` | src/app/tasks.cpp:29-46 | A task comes last with its id and times filled in, and no live task is lost |
| `TaskOutcomes.EarliestEndedMakesRoom` | src/app/tasks.cpp:166-187 | In a queue of 256 the earliest ended task makes room for a new one; without one the queue grows |
| `TaskRuns.StepKeeps` | src/app/tasks.cpp:29-147 | Every operation keeps: distinct ids, run count equal to claims made, waiting recurring tasks wait out their recurrence |
| `TaskRuns.RecurringRunsAreSpaced` | src/app/tasks.cpp:48-128 | The k-th claim of a recurring task is at least k-1 recurrences after its first; run count is bounded by the time passed, whether runs complete or fail |
| `TaskRuns.OneShotRunsOnce` | src/app/tasks.cpp:48-72 | No one-shot task is claimed twice in any run |
| `TaskRuns.DueTaskIsReached` | src/app/tasks.cpp:48-72 | A due task behind n pending one-shot and no recurring tasks is passed over by at most n successful claims |
| `TaskRuns.RecurringTaskStarves` | src/app/tasks.cpp:48-101 | The other side: behind a recurring task that is claimed no sooner than its recurrence, a due task is passed over by any number of claims |
| `TaskRuns.StarvationIsReachable` | src/app/tasks.cpp:29-72 | Such a state is reached from the start by submitting the two tasks |
| `TaskRuns.StoppedForGood` | src/app/tasks.cpp:130-147 | A task neither pending nor revivable is never claimed again |
| `TaskRuns.CompletionRevives` | src/app/tasks.cpp:74-101 | Completing a recurring task, even a cancelled one, makes it pending again |
| `TaskRuns.CancelledExceptInFlight` | cli/host.cpp:1533-1604 | In any state the invariant allows, a cancelled task can become pending again if and only if it is the recurring task in flight and outlives the trimming |
| `TaskRuns.LoopStep` | cli/host.cpp:1533-1604 | Every event of the task loop keeps: the running task is the one in flight, a waiting task is not, the history is bounded |
| `TaskRuns.CancelUndoneExactly` | src/app/tasks.cpp:130-147 | After any run of the task loop since the start, an accepted cancellation can be undone if and only if the task is running, is recurring, and the queue holds at most 256 entries |
| `TaskRuns.CancelledRunIsUndone` | src/app/tasks.cpp:74-101 | A run from the start, for every recurring request, in which a cancellation is accepted while the task runs and its completion makes it pending again |
| `TaskRuns.CancelledWhilePending` | src/app/tasks.cpp:130-147 | After any run of the task loop since the start, cancelling a pending task succeeds, and it is never pending or claimed again |
| `TaskRuns.HistoryStaysBounded` | src/app/tasks.cpp:166-187 | In every reachable state the queue has at most 256 entries or holds no ended task |
| `TaskRuns.LiveTasksAreKept` | src/app/tasks.cpp:166-187 | A pending or running task is never lost, whatever happens to other tasks |
| `TaskJson.BuildTasksJson` | src/app/tasks.cpp:209-226 | The streaming loop prints the list document |
| `TaskJson.TaskFieldReadsBack` | src/app/tasks.cpp:189-207 | Each of the twelve fields of a printed task reads back, whatever the texts contain |
| `PrintedOutcomes.MorePrintedTaskFields` | src/app/tasks.cpp:189-207 | Times, counts, texts and status of a printed task under their names; the status by one of five words |
| `TaskJson.TaskListReadsBack` | cli/tui.cpp:167-186 | The list splits exactly if and only if each task is balanced, and then the UI shows every task in order with its own fields |
| `ShownTasks.LastTaskShownExactly` | cli/tui.cpp:167-186 | When the tasks before the last one balance, the UI shows the list as it is if and only if nothing closes before the last task's status |
| `TaskJson.PairedTaskIsBalanced` | src/app/tasks.cpp:189-207 | Tasks whose texts pair their braces are balanced |
| `TaskTick.RequestReadsBack` | src/app/tasks.cpp:228-259 | A printed request is accepted exactly when its command is not empty, field by field; a non-positive delay or recurrence counts as none |
| `TaskTick.TrueOccursAtFlags` | cli/host.cpp:1564-1574 | `"key":true` occurs in a printed document if and only if that key holds true somewhere |
| `TaskTick.TrueOccursAtMembers` | cli/host.cpp:1553-1555 | For flat objects: if and only if some member of that name is true |
| `TaskTick.LaunchAndStopAlwaysFail` | cli/host.cpp:1561-1578 | Launch and stop tasks are always failed, even after a successful launch or stop |
| `TaskTick.RunIsJudgedByItsFlag` | cli/host.cpp:1549-1559 | A run task completes if and only if it was launched, whatever its captured output says |
| `PrintedOutcomes.CallIsJudgedByItsText` | cli/host.cpp:1580-1595 | A call fails exactly when the text of a false flag occurs anywhere in the answer; a task without a connector always fails |
| `Connectors.ConnectorRegistry.RegisterConnector` | src/net/connector.cpp:9-26 | Replaces in place or appends |
| `Connectors.ConnectorRegistry.UnregisterConnector` | src/net/connector.cpp:28-39 | Removes the connector of that id |
| `Connectors.ConnectorRegistry.LoadConnectors` | cli/droidcli.cpp:259-283 | Registers each valid object of a file in order |
| `Connectors.ParseConnectorFromJson` | src/net/connector.cpp:98-137 | The parser's result for every text, both rejections included |
| `Connectors.BuildConnectorsJson` | src/net/connector.cpp:58-96 | The nested streaming loops print the list document |
| `Connectors.ConnectorReadsBack` | src/net/connector.cpp:98-137 | Accepted exactly when id and kind are proper; every field but the capabilities reads back |
| `Connectors.RegisteringKeepsSound` | src/net/connector.cpp:9-39 | Registering and unregistering keep ids distinct and kinds known |
| `ConnectorOutcomes.RegisteringReplaces` | src/net/connector.cpp:9-26 | A connector of a known id takes the place of the earlier one, one of a new id comes last; the others stay |
| `ConnectorOutcomes.UnregisteringRemoves` | src/net/connector.cpp:28-39 | Exactly that connector goes, the others stay in order |
| `ConnectorOutcomes.LastObjectWins` | cli/droidcli.cpp:259-283 | Of the objects loaded under one id the last accepted one is in the registry |
| `ConnectorOutcomes.HandWrittenIsRead` | src/net/connector.cpp:98-137 | A registration with id, kind and one capability: the two refusals, and the defaults of what is not given |
| `Connectors.LoadingKeepsSound` | cli/droidcli.cpp:259-283 | So does loading any text |
| `Connectors.RegistrySurvivesRestart` | cli/droidcli.cpp:310-319 | The saved objects are found again if and only if they balance; balance is enough for loading to restore every sound registry in order, all but capabilities, but not needed |
| `RestoredRegistry.RegistryRestoredExactly` | cli/droidcli.cpp:310-319 | When the connectors before the last one balance, a sound registry is restored if and only if no proper prefix of the last one's texts closes its object and, if they close it at their end, it is enabled |
| `RestoredRegistry.DisabledComesBackEnabled` | src/net/connector.cpp:118-137 | A disabled connector whose texts close its object at their end comes back enabled |
| `RestoredRegistry.DisabledWitness` | src/net/connector.cpp:118-137 | A witness: a disabled connector with the working directory `}` |
| `Connectors.PairedConnectorIsBalanced` | src/net/connector.cpp:58-96 | Connectors whose texts pair their braces are balanced |
| `Settings.HexEncode` | cli/settings_store.cpp:24-35 | The encoding loop |
| `Settings.HexDecode` | cli/settings_store.cpp:37-63 | The decoding loop, refusing the empty text, odd lengths and other characters |
| `Settings.HexReadsBack` | cli/settings_store.cpp:24-63 | Decoding what was encoded gives the bytes back |
| `Settings.LoadSettings` | cli/settings_store.cpp:163-212 | The field-by-field overwriting, the 32-bit casts and the throwing case included |
| `Settings.SecretReadsBack` | cli/settings_store.cpp:110-159 | What any account reads of a secret that any account wrote; it is the secret if and only if it was written in the clear or the reader undoes the writer's protection |
| `Settings.LoadSaved` | cli/settings_store.cpp:163-233 | Loading what the same or another account saved, exactly: an empty URL or model keeps the earlier value |
| `Settings.SettingsSurvive` | cli/settings_store.cpp:163-233 | Saved settings load unchanged if and only if no empty URL or model meets an earlier one and the secret survives |
| `Settings.PersistCarriesOver` | cli/host.cpp:3291-3312 | The exact file written by a run-time change over a file of the same or another account, secret as it was read; for an account that can undo its own protection the secret in the new file is the one on disk before if and only if it survived being read |
| `SettingsFile.ChangeKeepsPort` | cli/host.cpp:3302-3311 | After a run-time change the readers find the port that was on disk and the five fields the running host owns |
| `SettingsFile.FirstChangeWritesDefaults` | cli/host.cpp:3302-3311 | The first change with no file yet writes port 30080, the five fields and no secret |
| `SettingsFile.ChangeOverAnyFile` | cli/host.cpp:3302-3311 | Over any text whatever: the port read from it, wrapped to 32 bits, or 30080, is in the new file; a number beyond 64 bits stops the change |
| `SettingsFile.SavedSecret` | cli/settings_store.cpp:110-130 | A protected secret stands in the file only in hex under its own name, an unprotected one in the clear |
| `SettingsFile.MissingFieldsKeepEarlier` | cli/settings_store.cpp:163-212 | Fields a file lacks keep their earlier values, except the secret |
| `SettingsFile.OtherDigitsAreRefused` | cli/settings_store.cpp:37-63 | A text with any character but hex digits of either case is refused |
| `Settings.ForeignSecretIsLost` | cli/host.hpp:553-559 | A secret of another account that cannot be decrypted here is blanked by the first change, for its writer too |
| `Media.MediaStore.LoadFile` | src/media/store.cpp:13-76 | Cached or decoded image and the new cache contents |
| `Media.MediaStore.FindCached` | src/media/store.cpp:78-88 | The cached image of a path, if any |
| `Media.MediaStore.InvalidatePath` | src/media/store.cpp:90-101 | Removes the one entry of a path |
| `MediaOutcomes.DecodedIsKept` | src/media/store.cpp:13-76 | A forced load, or one of an unknown or changed file, decodes; what it decodes is kept, and the next plain load returns it whatever decoding would then give |
| `MediaOutcomes.SameIdentityIsNotDecoded` | src/media/store.cpp:24-43 | A kept image under the same size and time is returned undecoded, an empty one as none |
| `MediaOutcomes.OthersAreKept` | src/media/store.cpp:13-101 | Loading or invalidating one path leaves the images of all others |
| `Media.RunIsFaithful` | src/media/store.cpp:13-107 | If size and time determine decoding, every load of every run returns what decoding at that moment would |
| `Media.StaleRun` | src/media/store.cpp:31-43 | Two versions with the same size and time but different images give a stale load |
| `Media.CacheIsInvisibleExactly` | src/media/store.cpp:13-107 | The cache is invisible in every run if and only if size and time determine what a file decodes to |
| `LanguageAi.LanguageRuntime.SubmitUserMessage` | src/ai/language_runtime.cpp:47-78 | Acceptance and new state |
| `LanguageAi.LanguageRuntime.ApplyChatResponse` | src/ai/language_runtime.cpp:99-128 | Acceptance and new state |
| `LanguageAi.StepStaysOrderly` | src/ai/language_runtime.cpp:19-149 | Every operation keeps the alternation and the last-message fields |
| `LanguageAi.EveryStateIsOrderly` | src/ai/language_runtime.cpp:19-149 | In every reachable state: an optional system prompt, then user and assistant in turn, a trailing user exactly when a response is awaited |
| `LanguageAi.FailedResponseChangesNothing` | src/ai/language_runtime.cpp:99-128 | A response changes the conversation exactly when one is awaited and it carries text; after a failed one a retry has the same effect as at first |
| `LanguageAi.RoundTrip` | src/ai/language_runtime.cpp:47-128 | A message and its response are in the transcript in this order and nothing is awaited, however many failed responses came in between |
| `LanguageAi.PromptIsSet` | src/ai/language_runtime.cpp:33-45 | Setting a prompt puts it first, replaces the earlier one or takes it away, and changes no other message |

## Left out

- Sockets, HTTP framing, routing, the terminal UI beyond its three text readers, process launch,
  registry, clipboard, services and system information: foreign calls and dispatch tables.
- Mutexes and data races: each host call is one atomic step; only the task loop's claim and its
  completion are separate steps.
- 64-bit overflow of clock arithmetic and of hop indices: times, delays and indices are unbounded
  integers. Numbers printed and parsed are bounded to 64 bits, and to 32 where the source casts.
- A store whose single appends fail: the memory store is open or closed as a whole. Rows with equal
  hop indices come back in the order they were stored; SQL leaves that order open.
- Task status strings are an enumeration.
- Within one call the provider's request is either always or never valid, since the configuration is
  copied at the call's start.
- Request building (`build_openai_chat_request`, `serialize_chat_messages`, `serialize_tools`): text
  for a reader outside the repository.
- Completions printed with white space, `null` or fractions: the token-level lookups allow blanks, but
  the document-level theorems are about compact texts of strings, booleans, integers, arrays and objects.
- `LanguageRuntime` transport (`complete_turn`): two modelled operations around an outside call.
- The mismatched-binary guard, the destructive-command flag and the reply templates: flat tables.
- `\uXXXX` escapes: the codec neither writes nor decodes them.
- FFmpeg and encryption at rest are oracles. A launch is a target handed to the operating system, which may still fail. A file does not change while one load runs.
- Lower-casing is that of ASCII letters, as in the "C" locale.
- Lists in which more than one object fails to balance: each reader's exact law is about the first such object, with balanced ones in front of it.
