# RepoForgeX core in Dafny

RepoForgeX creates and maintains GitHub repositories in bulk. This project
models five of its components and proves properties of them:

- **The batch operation engine** (`batch_operations.py`).
  - A `BatchOperationManager` holds the list of operations. It also holds the
    list of operations that succeeded and the list that failed.
  - It runs every operation in order under a stop-on-error policy. Each outcome
    is recorded on the operation itself.
  - It rolls back the successful operations in reverse order.
  - `RepositoryBatchCreator` builds "create the remote repository, then the local
    directory" operations. Their rollback removes only the local directory.
  - Both are Dafny classes. Operations are values kept in a `seq`. The two
    outcome lists hold positions into that sequence; this stands for the shared
    object references of the source.
  - The execute and rollback callables are actions. Whether each returns or
    raises (with its message) comes from an oracle.
  - Their effects act on a `World`:
    - the local filesystem, as a set of paths;
    - the creator's lists of created repositories and directories;
    - the trace of invoked actions.
- **The developer event emitter** (`events.py`).
  - An `EventEmitter` class appends each event to a buffer. The event's XP comes
    from a fixed table.
  - It can report one developer's total XP.
  - It can report a summary grouped by developer and by event type. The summary
    is built by the source's own loop over dictionaries.
- **The name suggester and the health scorer** (`ai_features.py`).
  - Suggestions are built from a description by these steps:
    1. tokenise;
    2. map technical keywords;
    3. drop stop words;
    4. build kebab, camel and snake variants;
    5. de-duplicate in order;
    6. drop the current name;
    7. cut to a count.
  - Health is a weighted checklist over file names. It comes with a rating and a
    fixed-order list of recommendations.
- **Repository analytics** (`analytics.py`).
  - A tracker class holds a list of repository records.
  - Its summary counts repositories: private and public, by owner and by template.
  - The summary also has the most common owner and template, naming-convention
    counts, a table of common name prefixes, and the shortest and longest names.
  - A rule-based list of recommendations is built on that summary.
- **Configuration validation** (`config.py`).
  - This covers the repository-name validator and the defaults of the entry and
    options records.
  - It also covers how a repository configuration is accepted or refused, and
    how `load_and_validate` maps failures to errors.

Module layout:

| File | Contents |
|---|---|
| `wrappers.dfy` | `Option` and `Result` |
| `text.dfy` | the ASCII string helpers: `str.lower`, `str.capitalize`, `in` on strings, `split(c)[0]`, `str(n)` |
| `grouping.dfy` | grouping in first-seen key order, as a `dict` or `defaultdict` filled by a loop does it |
| `batch_operations.dfy`, `events.dfy`, `ai_features.dfy`, `analytics.dfy`, `config.dfy` | one module per source file |

Where the source works by mutation, the model is imperative. The loops of
`execute_all` and `rollback_all` are `while` loops. The collection loop of
`suggest_names` (`ExtractTechTerms`), the tally loops of `get_summary`
(`Grouping.Tally`), the prefix loop of `_analyze_name_patterns`
(`CountPrefixes`) and the loop of `get_event_summary` are `for` loops.
`_get_recommendations` and `get_recommendations` have no loop: they are
sequences of conditional appends, modelled as straight-line methods. Each is
proved against a specification function, and the properties are proved as
lemmas about that function.

## Model

| member | source | states |
|---|---|---|
| Text.Lower | src/repoforgex/ai_features.py:59 | lower-casing keeps the length and maps every character through the (ASCII) lower-case mapping |
| Text.Capitalize | src/repoforgex/ai_features.py:101 | the first character is upper-cased, every later one lower-cased, length kept |
| Text.CaseKeepsWordChar | src/repoforgex/ai_features.py:60 | changing case keeps a `\w` character in `\w` |
| Text.ContainsAt | src/repoforgex/ai_features.py:142-154 | Python's `sub in s` holds exactly when sub occurs at some position of s |
| Text.Before | src/repoforgex/analytics.py:104 | `split("-")[0]` is a prefix of the name free of the separator, and stops at the first separator when there is one |
| Text.NatToString | src/repoforgex/analytics.py:170 | the decimal text of the owner count is non-empty, all digits, has no leading zero, and denotes the count: its decimal value is n |
| Grouping.FirstIndex | src/repoforgex/analytics.py:82-85 | the index found holds the key and no earlier index does |
| Grouping.DistinctSpec | src/repoforgex/analytics.py:61-63 | the keys of a dict filled from a sequence are exactly its elements, each once |
| Grouping.DistinctFirstSeenOrder | src/repoforgex/analytics.py:61-63 | dict keys are listed in the order of their first occurrence |
| Grouping.DistinctOrdered | src/repoforgex/analytics.py:61-63 | the whole key list of a dict filled from a sequence is in first-seen order of that sequence |
| Grouping.TallySpec | src/repoforgex/analytics.py:61-69 | a tally has one entry per distinct key in first-seen order, each with its true positive count, and the counts add up to the number of keys tallied |
| Grouping.CountsTotal | src/repoforgex/events.py:173-188 | per-key event counts over the distinct keys add up to the number of events |
| Grouping.SumsTotal | src/repoforgex/events.py:182-189 | per-key XP sums over the distinct keys add up to the total XP |
| Grouping.CountTableStep | src/repoforgex/analytics.py:63 | one `counter[k] += 1` keeps the counter equal to the true counts of the keys seen so far |
| Grouping.GroupTablesStep | src/repoforgex/events.py:186-189 | one step of the "insert if absent, then add 1 and add the XP" update keeps key order, counts and sums equal to their definitions |
| Grouping.ItemsTally | src/repoforgex/analytics.py:79-80 | `dict(counter)` built by the loop lists exactly the tally of the keys seen |
| Grouping.Tally | src/repoforgex/analytics.py:61-69 | the defaultdict loop computes the tally of the keys |
| BatchOperations.RemoveTree | src/repoforgex/batch_operations.py:193-194 | `rmtree` removes exactly the directory and everything beneath it |
| BatchOperations.Perform | src/repoforgex/batch_operations.py:174-185 | running an execute callable: a plain callable has the oracle's outcome and no effect; a creation is specified in CreateRepositoryEffect |
| BatchOperations.Undo | src/repoforgex/batch_operations.py:187-195 | running a rollback callable: a plain callable has the oracle's outcome and no effect; the creation rollback is specified in RemoveLocalDirectoryEffect |
| BatchOperations.CreateRepositoryEffect | src/repoforgex/batch_operations.py:174-185 | a creation records (owner, name) only when the remote call returns, then records and makes the local directory only when a path was given; a raising remote call changes nothing and its error is the outcome |
| BatchOperations.RemoveLocalDirectoryEffect | src/repoforgex/batch_operations.py:187-195 | the creation rollback never touches the remote repositories or the creator's lists, removes nothing outside the local directory, empties it when it exists and the removal succeeds, and raises only when the removal of an existing directory raises |
| BatchOperations.Attempted | src/repoforgex/batch_operations.py:62-72 | an attempted operation keeps its name, callables and metadata, is marked executed, succeeds exactly when its action returned, and stores the message of a raised error |
| BatchOperations.Attempt | src/repoforgex/batch_operations.py:60-74 | one loop step invokes the operation, updates only that operation, and appends its position to the succeeded list or, on error, to the failed list, never both; the error is caught |
| BatchOperations.Run | src/repoforgex/batch_operations.py:60-78 | the loop of execute_all from a position on, stopping after the first failure under stop-on-error; specified in RunToEnd and RunStopsOperations through RunStopsCalls |
| BatchOperations.AttemptOnlyAdds | src/repoforgex/batch_operations.py:174-185 | executing an operation never removes a created repository or a path |
| BatchOperations.Range | src/repoforgex/batch_operations.py:60 | positions lo, lo+1, …, hi-1 in order |
| BatchOperations.FirstFailure | src/repoforgex/batch_operations.py:69-78 | the first position whose action raises: every earlier one returns |
| BatchOperations.PartitionOfOutcomes | src/repoforgex/batch_operations.py:60-74 | every attempted position is in exactly one of the passing and failing lists, and their lengths add up to the number attempted |
| BatchOperations.RunToEnd | src/repoforgex/batch_operations.py:60-78 | without stop-on-error, every operation from the start position is attempted, in list order, the lists gain exactly the passing and the failing positions, and earlier operations are unchanged |
| BatchOperations.RunToEndOperations | src/repoforgex/batch_operations.py:60-74 | without stop-on-error every operation is replaced by its attempted version |
| BatchOperations.RunToEndExecuted | src/repoforgex/batch_operations.py:65-67 | without stop-on-error the succeeded list gains exactly the passing positions in order |
| BatchOperations.RunToEndFailed | src/repoforgex/batch_operations.py:69-73 | without stop-on-error the failed list gains exactly the failing positions in order |
| BatchOperations.RunToEndCalls | src/repoforgex/batch_operations.py:60-64 | without stop-on-error the actions are invoked once each, in list order |
| BatchOperations.RunStopsOperations | src/repoforgex/batch_operations.py:69-78 | with stop-on-error and the first failure at k, operations before k succeed, k is attempted and failed, and operations after k are left exactly as they were (not executed) |
| BatchOperations.RunStopsLists | src/repoforgex/batch_operations.py:65-78 | with stop-on-error the succeeded list gains exactly the positions before k, the failed list gains exactly k, and the actions up to and including k are invoked in order, none after |
| BatchOperations.RunStopsExecuted | src/repoforgex/batch_operations.py:65-67 | with stop-on-error the succeeded list gains exactly the positions before the first failure |
| BatchOperations.RunStopsFailed | src/repoforgex/batch_operations.py:69-78 | with stop-on-error the failed list gains exactly the first failing position, if any |
| BatchOperations.RunStopsCalls | src/repoforgex/batch_operations.py:60-78 | with stop-on-error no action after the first failure is invoked |
| BatchOperations.RunOnlyAdds | src/repoforgex/batch_operations.py:174-185 | a run of creations never drops a created repository or a path |
| BatchOperations.CountSucceededAll | src/repoforgex/batch_operations.py:86 | when every listed operation succeeded, the succeeded count is the list length |
| BatchOperations.CountSucceeded | src/repoforgex/batch_operations.py:86 | the number of listed operations marked successful is at most the number listed |
| BatchOperations.SummaryOf | src/repoforgex/batch_operations.py:83-91 | the summary counts all operations as total, the succeeded list as executed and the failed list as failed; succeeded never exceeds executed |
| BatchOperations.StatusOf | src/repoforgex/batch_operations.py:132-150 | executed plus pending is the number of operations, succeeded never exceeds executed, failed is the failed list's length, and there is one status row per operation, carrying its name, flags, error and metadata |
| BatchOperations.FirstRunOutcomes | src/repoforgex/batch_operations.py:61-74 | on a fresh manager, every operation in the succeeded list is marked successful and every one in the failed list is executed and unsuccessful |
| BatchOperations.FirstRunSummary | src/repoforgex/batch_operations.py:83-91 | on a fresh manager the summary's total is the number of operations, executed equals succeeded, the status counts failures as pending, without stop-on-error executed + failed = total, and with it executed = k and failed is 1 or 0 |
| BatchOperations.Visit | src/repoforgex/batch_operations.py:108-121 | visiting an operation without rollback changes nothing; otherwise its rollback is invoked once; a rollback that returns adds one to the rolled-back count and leaves the errors unchanged, and one that raises leaves the count and appends exactly "Failed to rollback <name>: <message>"; no repository or list is touched and no path added |
| BatchOperations.Reverse | src/repoforgex/batch_operations.py:108 | `reversed` lists the same elements back to front |
| BatchOperations.RollbackCalls | src/repoforgex/batch_operations.py:115 | one rollback invocation per position, in the given order |
| BatchOperations.WithRollbackSnoc | src/repoforgex/batch_operations.py:109-111 | the operations with a rollback grow by the new operation exactly when it has one |
| BatchOperations.PrefixPositions | src/repoforgex/batch_operations.py:108 | a prefix of the succeeded list still names operations of the batch |
| BatchOperations.SweepOrder | src/repoforgex/batch_operations.py:108-115 | the rollback sweep invokes exactly the rollbacks of the succeeded operations that have one, in reverse execution order, skipping the others |
| BatchOperations.Sweep | src/repoforgex/batch_operations.py:108-127 | the loop of rollback_all over the succeeded operations from the last back to the first; specified in SweepOrder, SweepAccounting and SweepCallableAccounting |
| BatchOperations.SweepAccounting | src/repoforgex/batch_operations.py:113-127 | rolled back plus errors equals the number of rollbacks attempted, every new error is a "Failed to rollback …" message appended in visit order, and the sweep never touches the created repositories |
| BatchOperations.SweepCallableAccounting | src/repoforgex/batch_operations.py:108-127 | when every rollback visited is a plain callable, the rolled-back count gains exactly the number of visited rollbacks that return, and the errors gain exactly one "Failed to rollback <name>: <message>" per raising rollback, in visit order (from the last succeeded operation back to the first) |
| BatchOperations.VisitCallable | src/repoforgex/batch_operations.py:113-121 | visiting a plain rollback callable adds one to the rolled-back count exactly when it returns, and appends its one error exactly when it raises |
| BatchOperations.SweepCallableRolledBack | src/repoforgex/batch_operations.py:113-116 | for plain rollback callables, the rolled-back count gains exactly the number of visited rollbacks that return |
| BatchOperations.SweepCallableErrors | src/repoforgex/batch_operations.py:118-121 | for plain rollback callables, the errors gain exactly one "Failed to rollback <name>: <message>" per raising rollback, latest execution first |
| BatchOperations.BatchOperationManager.constructor | src/repoforgex/batch_operations.py:28-31 | the three lists start empty |
| BatchOperations.BatchOperationManager.AddOperation | src/repoforgex/batch_operations.py:33-44 | appends exactly one operation with the given name, callables and metadata, not executed, not successful, no error, and leaves the other lists unchanged |
| BatchOperations.BatchOperationManager.ExecuteAll | src/repoforgex/batch_operations.py:47-94 | the loop leaves the operations, succeeded and failed lists and world those of the specification run, and returns its summary |
| BatchOperations.BatchOperationManager.RollbackAll | src/repoforgex/batch_operations.py:96-130 | the reverse loop returns the sweep's rolled-back count, the number of succeeded operations and the sweep's errors, and the sweep's world |
| BatchOperations.BatchOperationManager.GetStatus | src/repoforgex/batch_operations.py:132-150 | total is the number of operations, executed the succeeded list's length, pending their difference, succeeded at most executed, failed the failed list's length, one row per operation |
| BatchOperations.CreationOperation | src/repoforgex/batch_operations.py:197-204 | a creation is one operation named "Create repository owner/name", not yet run, creating that repository, with a rollback of that local directory, and `local_path` metadata None when no path is given |
| BatchOperations.RepositoryBatchCreator.constructor | src/repoforgex/batch_operations.py:156-160 | a fresh manager and empty creation lists |
| BatchOperations.RepositoryBatchCreator.AddRepositoryCreation | src/repoforgex/batch_operations.py:162-204 | appends exactly one creation operation to the manager |
| BatchOperations.RepositoryBatchCreator.Execute | src/repoforgex/batch_operations.py:206-208 | delegates to the manager's run, its closures appending to the creator's lists |
| BatchOperations.RepositoryBatchCreator.Rollback | src/repoforgex/batch_operations.py:210-212 | delegates to the manager's rollback sweep |
| BatchOperations.RepositoryBatchCreator.GetStatus | src/repoforgex/batch_operations.py:214-216 | the creator's status is its manager's status |
| BatchOperations.StopOnErrorExample | tests/test_batch_operations.py:60-82 | three operations with the second failing under stop-on-error: op1 and the failing one are invoked, op3 never, summary total 3, executed 1, succeeded 1, failed 1 |
| BatchOperations.RollbackExample | src/repoforgex/batch_operations.py:108-127 | an example of the sweep: rolling back three succeeded operations goes 3, 2, 1; a failing second rollback yields one "Failed to rollback op2: boom" error and two rolled back |
| Events.XpValueSpec | src/repoforgex/events.py:38-49 | XP is the table value of a listed event type and 10 otherwise; every value is at least 10, and exactly 10 only for unlisted types |
| Events.XpValue | src/repoforgex/events.py:38-49 | the XP of an event type; its values are stated in XpValueSpec |
| Events.Developers | src/repoforgex/events.py:173-175 | the developer of every buffered event, in order |
| Events.EventTypes | src/repoforgex/events.py:186 | the type of every buffered event, in order |
| Events.Xps | src/repoforgex/events.py:182-189 | the XP of every buffered event, in order |
| Events.ProjectionsSnoc | src/repoforgex/events.py:92 | appending an event extends each projection by that event's field |
| Events.TotalXpGrouped | src/repoforgex/events.py:143-153 | a developer's total XP is the sum of the XP of that developer's events, 0 for an unseen developer, and never negative |
| Events.TotalXp | src/repoforgex/events.py:143-153 | the XP of one developer's buffered events; stated in TotalXpGrouped and TotalXpNonNegative |
| Events.TotalXpIsSumWhere | src/repoforgex/events.py:153 | the filtered sum equals the grouped XP of that developer |
| Events.TotalXpNonNegative | src/repoforgex/events.py:153 | total XP is never negative |
| Events.RepoSetSpec | src/repoforgex/events.py:183 | a repository is in a developer's set exactly when some event of that developer names it |
| Events.DeveloperRowSums | src/repoforgex/events.py:181-182 | the per-developer event counts and XP add up to the counts and XP over those developers |
| Events.TypeRowSums | src/repoforgex/events.py:188-189 | the per-type counts and XP add up to the counts and XP over those types |
| Events.SummaryTotals | src/repoforgex/events.py:173-200 | total events is the buffer length, and per-developer counts, per-developer XP, per-type counts and per-type XP each add up to the totals |
| Events.SummaryOf | src/repoforgex/events.py:155-200 | the grouped summary of the buffer; stated in SummaryTotals, SummaryKeys and SummaryDeveloperRows |
| Events.SummaryKeys | src/repoforgex/events.py:175-187 | each developer and each type has exactly one row, and a row exists exactly for the developers and types that occur |
| Events.SummaryDeveloperRows | src/repoforgex/events.py:176-193 | a developer row counts at least one event, its XP is that developer's total XP, and its repositories value is the number of distinct repositories of that developer |
| Events.RepoTableStep | src/repoforgex/events.py:183 | adding one repository to a developer's set keeps the table equal to its definition |
| Events.RepoSetAbsent | src/repoforgex/events.py:176-179 | an unseen developer has no repositories |
| Events.DeveloperTablesStep | src/repoforgex/events.py:175-183 | one step of the developer loop keeps the order, counts, XP and repository tables equal to their definitions |
| Events.TypeTablesStep | src/repoforgex/events.py:186-189 | one step of the event-type loop keeps the order, counts and XP tables equal to their definitions |
| Events.TrackDeveloper | src/repoforgex/events.py:175-183 | the developer update of one event keeps the tables right for the events seen |
| Events.TrackEventType | src/repoforgex/events.py:186-189 | the event-type update of one event keeps the tables right for the events seen |
| Events.RowsFromTables | src/repoforgex/events.py:191-200 | after the loop, converting the repository sets to counts gives exactly the summary's rows |
| Events.EventEmitter.constructor | src/repoforgex/events.py:51-60 | the URL is the argument when truthy and the environment's otherwise; enabled exactly when the URL is truthy; the buffer starts empty |
| Events.EventEmitter.Emit | src/repoforgex/events.py:62-101 | appends exactly one event with the table XP and the given metadata or an empty map, returns True when disabled and the delivery outcome when enabled, and raises only the emitting developer's total XP, by that XP |
| Events.EventEmitter.SendWebhook | src/repoforgex/events.py:103-137 | the send succeeds exactly when a URL is set and the delivery succeeded |
| Events.EventEmitter.GetEvents | src/repoforgex/events.py:139-141 | returns the buffered events in order |
| Events.EventEmitter.GetTotalXp | src/repoforgex/events.py:143-153 | the sum of XP of that developer's events, 0 when the developer is unseen |
| Events.EventEmitter.GetEventSummary | src/repoforgex/events.py:155-200 | the loop builds the grouped summary; an empty buffer yields 0 events, 0 XP and no rows |
| AiFeatures.WordRun | src/repoforgex/ai_features.py:60 | the length of the leading run of word characters, which stops at the first non-word character |
| AiFeatures.WordsAreWords | src/repoforgex/ai_features.py:60 | every token is a non-empty run of word characters |
| AiFeatures.Words | src/repoforgex/ai_features.py:60 | `re.findall(r"\b\w+\b")`: the maximal runs of word characters, left to right; stated in WordsAreWords, WordsOfWord and WordsSplit |
| AiFeatures.WordRunAppend | src/repoforgex/ai_features.py:60 | a run of word characters ends at a following non-word character |
| AiFeatures.WordsOfWord | src/repoforgex/ai_features.py:60 | a string made only of word characters is exactly one token |
| AiFeatures.WordsSplit | src/repoforgex/ai_features.py:60 | a non-word character separates tokens: the tokens of p, c, q are those of p followed by those of q, so none is dropped or split |
| AiFeatures.TablesAreWords | src/repoforgex/ai_features.py:13-38 | every keyword abbreviation and language prefix is a word |
| AiFeatures.TechTermsAreWords | src/repoforgex/ai_features.py:63-68 | every technical term found is a word |
| AiFeatures.TechTerms | src/repoforgex/ai_features.py:63-68 | the abbreviations of the keywords and languages of the words, in word order; computed by ExtractTechTerms and stated in TechTermsAreWords |
| AiFeatures.SignificantSpec | src/repoforgex/ai_features.py:71-86 | a word is significant exactly when it is in the text, not a stop word and longer than 3 |
| AiFeatures.Significant | src/repoforgex/ai_features.py:71-86 | the words kept as important, in order; stated in SignificantSpec |
| AiFeatures.ImportantWords | src/repoforgex/ai_features.py:86 | at most three important words |
| AiFeatures.ImportantWordsSpec | src/repoforgex/ai_features.py:86 | the important words are the first three significant words, or all of them when fewer |
| AiFeatures.FirstTwo | src/repoforgex/ai_features.py:91 | `[:2]` keeps the first two words, or all when fewer |
| AiFeatures.Slice | src/repoforgex/ai_features.py:111 | `[:count]` is a prefix of length count, capped at the length, and cuts from the end for a negative count |
| AiFeatures.JoinNameChars | src/repoforgex/ai_features.py:91-105 | joining words with "-" or "_" yields only word characters and hyphens |
| AiFeatures.CamelJoinNameChars | src/repoforgex/ai_features.py:101 | concatenating capitalised words yields only word characters |
| AiFeatures.CandidatesNameChars | src/repoforgex/ai_features.py:88-105 | every candidate name is made of word characters and hyphens |
| AiFeatures.Candidates | src/repoforgex/ai_features.py:88-105 | the kebab, tech-prefixed, camel and snake variants in generation order; stated in CandidatesNameChars |
| AiFeatures.KeepSpec | src/repoforgex/ai_features.py:109 | the filter keeps exactly the non-empty names other than the current name, and keeps the list free of repeats |
| AiFeatures.Keep | src/repoforgex/ai_features.py:109 | the filter for non-empty names other than the current one; stated in KeepSpec and KeepOrdered |
| AiFeatures.KeepOrdered | src/repoforgex/ai_features.py:109 | the filter keeps the relative first-seen order of the names it keeps |
| AiFeatures.ImportantAreWords | src/repoforgex/ai_features.py:59-86 | every important word of a lower-cased description is a word |
| AiFeatures.FilteredCandidates | src/repoforgex/ai_features.py:108-109 | after de-duplication and filtering no name repeats, and a name remains exactly when it is a non-empty candidate other than the current name |
| AiFeatures.SlicePreserves | src/repoforgex/ai_features.py:111 | cutting keeps the list free of repeats and adds nothing |
| AiFeatures.SuggestionsSpec | src/repoforgex/ai_features.py:41-111 | an empty description gives no suggestion; otherwise at most count suggestions, no repeats, neither the current name nor "", each one a candidate built from the description |
| AiFeatures.Suggestions | src/repoforgex/ai_features.py:41-111 | what suggest_names returns; stated in SuggestionsSpec, SuggestionsOrder and SuggestionsAreNames |
| AiFeatures.PrefixOrdered | src/repoforgex/ai_features.py:111 | a prefix of a first-seen-ordered list stays ordered and precedes every element it cuts off |
| AiFeatures.SuggestionsOrder | src/repoforgex/ai_features.py:88-111 | suggestions are in first-seen order of the candidates; for count >= 0 they are the first min(count, n) of the n de-duplicated, filtered candidates, and a qualifying candidate is left out only when count suggestions, all seen before it, are returned |
| AiFeatures.SuggestionsAreNames | src/repoforgex/ai_features.py:88-111 | no suggestion contains a space or any character other than word characters and hyphens |
| AiFeatures.ExtractTechTerms | src/repoforgex/ai_features.py:63-68 | the loop collects the abbreviations of the keywords and languages in word order |
| AiFeatures.SuggestNames | src/repoforgex/ai_features.py:41-111 | the loops build exactly the specified suggestions |
| AiFeatures.LowerAll | src/repoforgex/ai_features.py:139 | every file name lower-cased, in order |
| AiFeatures.Evaluate | src/repoforgex/ai_features.py:139-155 | the eight checks on the lower-cased names; their use is stated in CalculateScore |
| AiFeatures.ScoreBounds | src/repoforgex/ai_features.py:117-158 | the maximum score is 100; the score lies in 0..100, is 100 exactly when all checks pass and 0 exactly when none does |
| AiFeatures.Score | src/repoforgex/ai_features.py:157 | the weighted sum of the passing checks; stated in ScoreBounds |
| AiFeatures.RatingSpec | src/repoforgex/ai_features.py:163-170 | "Excellent" exactly at >= 90, "Good" on 75..89, "Fair" on 50..74, "Needs Improvement" below 50, and nothing else |
| AiFeatures.Rating | src/repoforgex/ai_features.py:163-170 | the rating thresholds; stated in RatingSpec |
| AiFeatures.AdviceLengthSpec | src/repoforgex/ai_features.py:186-201 | the length of each fixed message |
| AiFeatures.AdviceTextInjective | src/repoforgex/ai_features.py:186-201 | the fixed messages are pairwise different |
| AiFeatures.NeedStep | src/repoforgex/ai_features.py:186-201 | each conditional append keeps the items free of repeats and in checklist order |
| AiFeatures.NeedChain | src/repoforgex/ai_features.py:186-201 | the seven conditional appends yield no repeated item |
| AiFeatures.MissingItemsSpec | src/repoforgex/ai_features.py:182-203 | one item per failing check other than the code of conduct, each once |
| AiFeatures.MissingItems | src/repoforgex/ai_features.py:186-201 | the failing checks that carry advice, in advice order; stated in MissingItemsSpec and MissingItemsMembers |
| AiFeatures.MissingItemsCount | src/repoforgex/ai_features.py:186-201 | as many items as failing checks among the seven |
| AiFeatures.NeedLength | src/repoforgex/ai_features.py:186 | a check adds one item when it fails and none otherwise |
| AiFeatures.MissingItemsMembers | src/repoforgex/ai_features.py:186-201 | an item is listed exactly when its check fails, and the code of conduct never is |
| AiFeatures.NeedMember | src/repoforgex/ai_features.py:186 | a check's item is added exactly when it fails |
| AiFeatures.TextsAppendNeed | src/repoforgex/ai_features.py:186-201 | a conditional append adds that check's message exactly when it fails |
| AiFeatures.RecommendationsSpec | src/repoforgex/ai_features.py:182-203 | one message per failing check, no repeats, unaffected by the code of conduct, empty exactly when the other seven pass, and holding a check's message exactly when it fails |
| AiFeatures.RecommendationsOf | src/repoforgex/ai_features.py:182-203 | the recommendations of the checks; stated in RecommendationsSpec |
| AiFeatures.RecommendationsCount | src/repoforgex/ai_features.py:182-203 | as many messages as failing checks; none exactly when the seven checks pass |
| AiFeatures.RecommendationsNoDup | src/repoforgex/ai_features.py:182-203 | no message is repeated |
| AiFeatures.RecommendationsMention | src/repoforgex/ai_features.py:186-201 | a check's message is present exactly when that check fails |
| AiFeatures.TextsNoDup | src/repoforgex/ai_features.py:186-201 | distinct items give distinct messages |
| AiFeatures.TextsMention | src/repoforgex/ai_features.py:186-201 | a message is present exactly when its item is |
| AiFeatures.Advise | src/repoforgex/ai_features.py:186-201 | one conditional append adds the message of that check when it fails |
| AiFeatures.GetRecommendations | src/repoforgex/ai_features.py:182-203 | the appends build exactly the specified recommendations |
| AiFeatures.CalculateScore | src/repoforgex/ai_features.py:128-179 | max score 100; the checks are evaluated on the lower-cased names; the score is the weighted sum of the passing checks, in 0..100, equal to the percentage, and 100 exactly when all pass; the rating is the rating of the score: "Excellent" at 90 and above, "Good" on 75..89, "Fair" on 50..74, "Needs Improvement" below 50; the recommendations are those of these checks |
| AiFeatures.GenerateIssueTemplate | src/repoforgex/ai_features.py:210-273 | the API template exactly for "api", the general one for any other type |
| Analytics.TemplateKey | src/repoforgex/analytics.py:68 | a missing or empty template is counted under "none", any other under its own name |
| Analytics.Names | src/repoforgex/analytics.py:93 | the name of every record, in order |
| Analytics.Owners | src/repoforgex/analytics.py:62-63 | the owner of every record, in order |
| Analytics.TemplateKeys | src/repoforgex/analytics.py:67-69 | the template key of every record, in order |
| Analytics.PrivateCount | src/repoforgex/analytics.py:57 | the private count never exceeds the total |
| Analytics.PrivateCountSpec | src/repoforgex/analytics.py:57-58 | the private count is 0 exactly when every repository is public and the total exactly when every one is private |
| Analytics.CamelFromSpec | src/repoforgex/analytics.py:98 | the tail of the camel-case pattern matches exactly when an upper-case letter follows a run of ASCII letters and digits |
| Analytics.IsCamelSpec | src/repoforgex/analytics.py:98 | a name counts as camel case exactly when it matches `^[a-z][a-zA-Z0-9]*[A-Z]` |
| Analytics.IsKebab | src/repoforgex/analytics.py:96 | kebab case: a "-" and no "_"; counted in CountWhereSpec and KebabSnakeBound |
| Analytics.IsSnake | src/repoforgex/analytics.py:97 | snake case: any "_"; counted in CountWhereSpec and KebabSnakeBound |
| Analytics.IsCamel | src/repoforgex/analytics.py:98 | the camel-case pattern; stated in IsCamelSpec |
| Analytics.CountWhereSpec | src/repoforgex/analytics.py:96-98 | a convention count is at most the number of names and positive exactly when some name follows the convention |
| Analytics.KebabSnakeBound | src/repoforgex/analytics.py:96-97 | kebab count plus snake count is at most the number of names |
| Analytics.ShortestIndex | src/repoforgex/analytics.py:119 | `min(names, key=len)`: a name of minimal length, the first one on ties |
| Analytics.LongestIndex | src/repoforgex/analytics.py:120 | `max(names, key=len)`: a name of maximal length, the first one on ties |
| Analytics.PrefixKeysSpec | src/repoforgex/analytics.py:101-106 | a prefix is counted exactly when some name contains "-" and its text before the first "-" is that prefix of at most 10 characters |
| Analytics.PrefixKeys | src/repoforgex/analytics.py:101-106 | the prefixes the names contribute; stated in PrefixKeysSpec |
| Analytics.WithCountSnoc | src/repoforgex/analytics.py:116 | the entries with a given count grow by the new entry exactly when it has that count |
| Analytics.InsertMultiset | src/repoforgex/analytics.py:116 | inserting an entry adds exactly that entry |
| Analytics.InsertNonIncreasing | src/repoforgex/analytics.py:116 | inserting into a list in non-increasing count order keeps that order |
| Analytics.InsertStable | src/repoforgex/analytics.py:116 | the inserted entry goes after every entry of equal count |
| Analytics.SortSpec | src/repoforgex/analytics.py:116 | `sorted(…, key=count, reverse=True)` is in non-increasing count order, a permutation of its input, and stable: the entries of each count keep their relative order |
| Analytics.SortByCount | src/repoforgex/analytics.py:116 | the stable sort by count, largest first; stated in SortSpec |
| Analytics.Take | src/repoforgex/analytics.py:116 | `[:5]` is a prefix of length min(n, length) |
| Analytics.SortedLength | src/repoforgex/analytics.py:116 | sorting keeps the length and the entries |
| Analytics.TopEntries | src/repoforgex/analytics.py:115-117 | the first n sorted entries are min(n, length) entries of the table in non-increasing count order |
| Analytics.TopEntriesMaximal | src/repoforgex/analytics.py:115-117 | no entry left out has a larger count than one reported |
| Analytics.CommonPrefixesCounts | src/repoforgex/analytics.py:100-117 | at most 5 prefixes are reported (all of them when fewer), in non-increasing count order, each a counted prefix with its true count |
| Analytics.CommonPrefixesTop | src/repoforgex/analytics.py:115-117 | no prefix left out has a larger count than any reported one |
| Analytics.CommonPrefixes | src/repoforgex/analytics.py:115-117 | the five most counted prefixes; stated in CommonPrefixesCounts and CommonPrefixesTop |
| Analytics.MaxCountIndex | src/repoforgex/analytics.py:82-85 | `max(items, key=count)`: an entry of maximal count, the first one on ties |
| Analytics.MostCommonSpec | src/repoforgex/analytics.py:82-85 | the most active owner or most used template is None exactly for no keys; otherwise it occurs, has a maximal count, and is the first seen among the keys of that count |
| Analytics.MostCommon | src/repoforgex/analytics.py:82-85 | the most active owner or most used template; stated in MostCommonSpec |
| Analytics.NamePatternsOf | src/repoforgex/analytics.py:88-91 | no pattern record exactly when there are no names |
| Analytics.LookupAt | src/repoforgex/analytics.py:148 | `dict.get(k, 0)` returns the count of a present key |
| Analytics.LookupAbsent | src/repoforgex/analytics.py:148 | `dict.get(k, 0)` returns 0 for an absent key |
| Analytics.LookupTally | src/repoforgex/analytics.py:148 | looking a key up in a tally gives the number of times it was seen, 0 if never |
| Analytics.SummaryCounts | src/repoforgex/analytics.py:53-86 | the "No repositories tracked" summary exactly for no repositories; otherwise private + public = total, the owner and template counts each add up to the total, the owner and template keys are exactly those that occur, and the "none" count is the number of records without a template |
| Analytics.SummaryOf | src/repoforgex/analytics.py:53-86 | get_summary over the tracked repositories; stated in SummaryCounts |
| Analytics.HintsForSpec | src/repoforgex/analytics.py:136-172 | at most four messages; with the corrected privacy rule, all-public exactly when no repository is private; all-private exactly when some are and all are; templates exactly when more than 30% have none; mixed naming exactly when both the kebab and snake counts are positive; owners exactly when there are more than 3, carrying that number |
| Analytics.HintText | src/repoforgex/analytics.py:131-172 | the message of each recommendation |
| Analytics.HintsFor | src/repoforgex/analytics.py:136-172 | the four rules on the numbers they read; stated in HintsForSpec |
| Analytics.HintsOfSummary | src/repoforgex/analytics.py:130-174 | no repositories yield exactly the one "Create some repositories" message; otherwise the rules are applied to the private count, the template-less count, the naming counts and the number of owners of the tracked records |
| Analytics.HintsOf | src/repoforgex/analytics.py:130-174 | the hints of a summary, with the corrected privacy rule; stated in HintsOfSummary |
| Analytics.RecommendationsOf | src/repoforgex/analytics.py:123-174 | get_recommendations as messages; computed by GetRecommendations |
| Analytics.PrivacyRule | src/repoforgex/analytics.py:137-144 | the all-public rule fires exactly when every repository is public, the all-private rule exactly when every one is private |
| Analytics.NamingRule | src/repoforgex/analytics.py:155-164 | the mixed-naming rule fires exactly when some name is kebab case and some name is snake case |
| Analytics.Say | src/repoforgex/analytics.py:138-143 | appending a message extends the messages by that rule's text |
| Analytics.AdvisePrivacy | src/repoforgex/analytics.py:137-144 | appends the privacy message that the corrected rule selects, if any |
| Analytics.AdviseTemplates | src/repoforgex/analytics.py:147-152 | appends the template message when more than 30% of repositories have none |
| Analytics.AdviseNaming | src/repoforgex/analytics.py:155-164 | appends the naming message when both conventions occur |
| Analytics.AdviseOwners | src/repoforgex/analytics.py:167-172 | appends the consolidation message with the owner count when there are more than 3 owners |
| Analytics.Recommend | src/repoforgex/analytics.py:130-174 | the appends produce the texts of exactly the rules that fire, in rule order |
| Analytics.RoundedTenths | src/repoforgex/analytics.py:78 | `round(private_count / total * 100, 1)` in tenths of a percent, halves to even; its use is stated in PrivacyAsWrittenMisfires and PrivacyAsWrittenAgrees |
| Analytics.PrivacyHintAsWritten | src/repoforgex/analytics.py:137-144 | the privacy test as written, on the rounded percentage; see Findings, PrivacyAsWrittenMisfires and PrivacyAsWrittenAgrees |
| Analytics.PrivacyAsWrittenMisfires | src/repoforgex/analytics.py:137-144 | see Findings: the percentage rounded at line 78 reports 1 private repository of 3000 as all public, and 2999 of 3000 as all private |
| Analytics.PrivacyAsWrittenAgrees | src/repoforgex/analytics.py:137-144 | for fewer than 2000 repositories the rounded-percentage test agrees with the integer rule |
| Analytics.PrefixKeysSnoc | src/repoforgex/analytics.py:102-106 | one more name adds its prefix exactly when it contains "-" and the prefix has at most 10 characters |
| Analytics.CountPrefixes | src/repoforgex/analytics.py:101-106 | the prefix loop computes the tally of the qualifying prefixes |
| Analytics.RepositoryAnalytics.constructor | src/repoforgex/analytics.py:14-15 | no repository is tracked |
| Analytics.RepositoryAnalytics.AddRepository | src/repoforgex/analytics.py:17-44 | appends exactly one record with the given name, owner, privacy and template, earlier records unchanged |
| Analytics.RepositoryAnalytics.GetSummary | src/repoforgex/analytics.py:46-86 | the counter loops produce the specified summary of the tracked repositories |
| Analytics.RepositoryAnalytics.AnalyzeNamePatterns | src/repoforgex/analytics.py:88-121 | produces the specified name patterns of the tracked names |
| Analytics.RepositoryAnalytics.GetRecommendations | src/repoforgex/analytics.py:123-174 | produces the recommendation texts of the summary of the tracked repositories |
| Config.OptionalField | src/repoforgex/config.py:10-14 | a missing field takes its default, an explicit null is None, a given value is kept |
| Config.ValidateNameSpec | src/repoforgex/config.py:16-20 | a name is accepted exactly when it is non-empty and contains no space, and is then returned unchanged; otherwise the error is the validator's message |
| Config.ValidateName | src/repoforgex/config.py:16-20 | the name validator; stated in ValidateNameSpec |
| Config.ValidateEntrySpec | src/repoforgex/config.py:8-20 | an entry is accepted exactly when its name is given and valid; it then keeps the name, takes description "", private true, no template, path or owner when missing, and keeps given values; a refusal names that entry's "name" field |
| Config.ValidateEntry | src/repoforgex/config.py:8-20 | validating one raw entry; stated in ValidateEntrySpec |
| Config.ValidateReposAccepts | src/repoforgex/config.py:30 | the list is accepted exactly when every entry is valid, giving one validated entry per raw entry, in order |
| Config.ValidateReposErrorsNameEntries | src/repoforgex/config.py:38-41 | every reported error names an entry of the list that is invalid |
| Config.ValidateReposErrorsCover | src/repoforgex/config.py:38-41 | every invalid entry's error is reported |
| Config.ValidateRepos | src/repoforgex/config.py:30 | validating the list of entries; stated in ValidateReposAccepts, ValidateReposErrorsNameEntries and ValidateReposErrorsCover |
| Config.OptionsOf | src/repoforgex/config.py:23-26 | options default to branch "main", commit message "Initial commit from RepoForgeX" and no SSH when missing, and keep given values |
| Config.DefaultOptions | src/repoforgex/config.py:31 | the options a config gets without an options key |
| Config.ValidateConfigSpec | src/repoforgex/config.py:29-31 | a config is accepted exactly when the repository list is given and all its entries are valid; a missing or null list is refused at "repos"; entries keep their order; options are defaulted when missing, None when null, validated when given |
| Config.ValidateConfig | src/repoforgex/config.py:29-31 | validating a raw configuration; stated in ValidateConfigSpec |
| Config.LoadAndValidateSpec | src/repoforgex/config.py:34-42 | a missing file is reported as not found before any parsing, with the path in the message; unparsable or non-mapping documents are not turned into schema errors; a mapping loads exactly when it validates; every schema violation, a bad name included, becomes an invalid-schema error carrying the violations |
| Config.LoadAndValidate | src/repoforgex/config.py:34-42 | load_and_validate on the given file state and parse result; stated in LoadAndValidateSpec |

## Left out

- Wall-clock values are not modelled: operation timestamps, `duration_seconds`, the ISO start and end times, event timestamps (an input to `Emit`) and `created_at`.
- Logging is not modelled; it has no effect on results.
- The webhook HTTP request is not modelled, because it is network I/O. Its result is the `delivered` input. Reading `NEOPLAYER_WEBHOOK_URL` from the environment is the `environmentUrl` input.
- `export_events` is not modelled, because it is a file write. The process-wide `_emitter` singleton and `emit_event` are not modelled, because they are global state.
- `DeveloperEvent.to_dict` is a serialisation only and is not modelled.
- `get_trend_analysis` and the report exports in analytics.py are not modelled, because they depend on the clock.
- `average_name_length` is not modelled, because it is a rounded float.
- Analytics.Summary: `private_percentage` is not a field. The recommendation rules are stated on the integer counts instead; the Findings section compares the two.
- Analytics.HintsFor: its privacy rule follows the corrected privacy rule of the Findings section (no private repository, or every one private), not the rounded-percentage test of analytics.py:137-144. The two differ from 2000 repositories up; for example, 1 private repository of 3000 gets the all-public message from the source and no privacy message from the model.
- Analytics.HintsForSpec: its all-public and all-private clauses follow the corrected privacy rule of the Findings section (no private repository, or every one private), not the rounded-percentage test of analytics.py:137-144. The two differ from 2000 repositories up; for example, 1 private repository of 3000 gets the all-public message from the source and no privacy message from the model.
- Analytics.HintsOf: its privacy hint follows the corrected privacy rule of the Findings section (no private repository, or every one private), not the rounded-percentage test of analytics.py:137-144. The two differ from 2000 repositories up; for example, 1 private repository of 3000 gets the all-public message from the source and no privacy message from the model.
- Analytics.HintsOfSummary: its privacy rule follows the corrected privacy rule of the Findings section (no private repository, or every one private), not the rounded-percentage test of analytics.py:137-144. The two differ from 2000 repositories up; for example, 1 private repository of 3000 gets the all-public message from the source and no privacy message from the model.
- Analytics.RecommendationsOf: its privacy message follows the corrected privacy rule of the Findings section (no private repository, or every one private), not the rounded-percentage test of analytics.py:137-144. The two differ from 2000 repositories up; for example, 1 private repository of 3000 gets the all-public message from the source and no privacy message from the model.
- Analytics.AdvisePrivacy: its test follows the corrected privacy rule of the Findings section (no private repository, or every one private), not the rounded-percentage test of analytics.py:137-144. The two differ from 2000 repositories up; for example, 1 private repository of 3000 gets the all-public message from the source and no privacy message from the model.
- Analytics.Recommend: its privacy append follows the corrected privacy rule of the Findings section (no private repository, or every one private), not the rounded-percentage test of analytics.py:137-144. The two differ from 2000 repositories up; for example, 1 private repository of 3000 gets the all-public message from the source and no privacy message from the model.
- Analytics.RepositoryAnalytics.GetRecommendations: its privacy message follows the corrected privacy rule of the Findings section (no private repository, or every one private), not the rounded-percentage test of analytics.py:137-144. The two differ from 2000 repositories up; for example, 1 private repository of 3000 gets the all-public message from the source and no privacy message from the model.
- Analytics.TemplateHint: "none > total * 0.3" is stated on integers as `10 * none > 3 * total`. A binary float can round `total * 0.3` so that the two differ at an exact 30% boundary for some large totals.
- Analytics.RoundedTenths: `round(x, 1)` is modelled as exact round-half-even in tenths of a percent. Binary float representation can move a value that lies exactly on a half.
- The `**metadata` of `add_repository` is not modelled; no computation reads it.
- Text.Lower: `str.lower`, `str.capitalize` and the regular-expression class `\w` are modelled on ASCII. Python applies Unicode rules to them.
- BatchOperations.Perform: `mkdir(parents=True, exist_ok=True)` is modelled as always succeeding. The remote `create_repo` call is an action whose outcome comes from the oracle. Only the `rmtree` of an existing directory may fail.
- The GitHub client is not part of this model: `create_repo`'s return value is not modelled. The rollback of a creation never deletes the remote repository, as in the source.
- The Python callables of an operation are actions named by a number; their effect on outside state is the recorded invocation.
- BatchOperations.BatchOperationManager.GetStatus: the per-operation list is the operations themselves. `pending` is stated in FirstRunSummary.
- The summary's `executed` field counts only successful operations, because `executed_operations` receives an operation only on success (batch_operations.py:65-67). The model follows the code.
- `generate_pr_template`, `generate_security_policy` and `generate_code_of_conduct` return fixed texts and are not modelled. The issue templates are two opaque constants.
- YAML parsing and pydantic's type coercion are not modelled. A document is either unparsable, not a mapping, or a mapping of raw fields. A field is missing, null or given, and a given value already has its declared type.
- Config.LoadAndValidate: the rendered text of a pydantic `ValidationError` is not modelled. The error carries the prefix "Invalid config schema: " and the list of violations.
- For a YAML document that is not a mapping, `RepoConfig(**raw)` raises a `TypeError`, which is not caught; this is the `TypeError` error. Reading the file raises an I/O error that is not modelled.
- Default arguments are not modelled as such; every caller passes every argument. The defaults are `stop_on_error=True` (batch_operations.py:47 and 206), `rollback=None` (batch_operations.py:33), `description=""`, `private=True` and `local_path=None` (batch_operations.py:162-163), `current_name=""` and `count=3` (ai_features.py:41), `repo_type="general"` (ai_features.py:210) and `template=None` (analytics.py:22).
- Events.EventEmitter.GetEvents: `get_events` returns the buffer list itself (events.py:141), so a caller that mutates it changes the emitter. The model returns the buffer's value, and this aliasing is not modelled.
- BatchOperations.Undo: a raising removal of the local directory is modelled as removing nothing. `shutil.rmtree` deletes entry by entry and raises at the first error, so part of the tree may already be gone. The sweep's and `rollback_all`'s filesystem after a failed rollback is therefore this no-removal state.
- BatchOperations.Perform: `mkdir(parents=True)` also creates the missing parent directories. The model adds only the target path to the filesystem.
- BatchOperations.SweepAccounting: the closed form of the counts (SweepCallableAccounting) is proved only when every rollback visited is a plain callable. The outcome of a creation rollback also depends on whether its directory exists at visit time. For that case, the model states each visit's effect in BatchOperations.Visit, and SweepAccounting states the totals.
- `multi_sync.py`, `scaffold.py`, `github_client.py`, `auth/github_app.py`, `cli.py` and `web.py` are not part of this model. They are subprocess, HTTP and CLI glue around the core.

## Findings

| source | as written | input that shows it | evidently intended | confidence | as-written member | corrected member |
|---|---|---|---|---|---|---|
| src/repoforgex/analytics.py:137-144 | the privacy warnings (with the percentage of line 78) test `round(private/total*100, 1) == 0` and `== 100`, so a share below 0.05% reads as 0 and one above 99.95% as 100 | 3000 repositories of which 1 is private: the percentage rounds to 0.0 and "All repositories are public" is emitted; 2999 of 3000 private rounds to 100.0 and "All repositories are private" is emitted | warn about all-public only when no repository is private, and about all-private only when every one is | not executed | Analytics.PrivacyAsWrittenMisfires | Analytics.PrivacyRule |
