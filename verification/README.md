# cc-history: the log-to-thread engine in Dafny

cc-history reads the JSON-lines conversation logs that an AI coding assistant
writes under `~/.claude/projects/<project>/*.jsonl`. It keeps the records of
today and groups them into *threads*. A thread is one genuine user prompt
together with the assistant responses reached from it through the records'
`parentUuid` links. The tool sums four token counters per thread, counts the
`tool_use` blocks and prices the tokens. It then folds all threads into day
totals and shows them in a terminal menu.

This project models that engine, `LogParser` in `src/parser.ts`, and the pure
helpers of the terminal front end in `src/ui.ts`:

| file | module | models |
|---|---|---|
| `types.dfy` | `LogTypes` | the record, thread and day-statistics shapes of `src/types.ts`; the per-record token and `tool_use` counts |
| `pricing.dfy` | `Pricing` | `calculateCost` and its rates |
| `records.dfy` | `RecordStore` | `parseLogFile`'s date filter, the merge in `getTodayEntries` and its sort by time |
| `threads.dfy` | `ThreadBuilder` | `buildUserThreads` and `buildThread`: root selection, the parent-link walk, accumulation |
| `stats.dfy` | `DailyAggregator` | `calculateDailyStats` |
| `ui.dfy` | `Ui` | `getProjectName`, `truncateMessage`, `getResponseTypeIcon`, the counting in `getToolBreakdown`, the per-response cost |

`getProjectName` appears twice with the same body: in `LogParser`
(`src/parser.ts:218-221`) and in `UI` (`src/ui.ts:259-262`).
`Ui.GetProjectName` models both.

The code mutates local records, arrays and a `visited` set inside loops.
Those functions become methods with loops that are proved against
specification functions:

- `BuildThread` is proved against `ThreadOf`.
- `CalculateDailyStats` is proved against `DailyStatsOf`.
- `GetTodayEntries` is proved against `SortByTime(MergedEntries(...))`.
- `GetToolBreakdown` is proved against `CountNamed`.

The properties the code promises are lemmas about those functions. Neither
class has a field that changes after construction, so there are no Dafny
classes. The records the code updates field by field are datatype values
updated with `.(f := v)`.

Representation choices:

- **Money** is exact: a `nat` in units of 10^-8 dollars. The per-token rates
  are then 300 (input), 1500 (output), 375 (cache creation) and 30 (cache
  read).
- **Timestamps** are kept twice. The raw string is kept for the
  `startsWith(today)` filter. The instant it denotes is an `int` field,
  `time`, used for sorting and for the start and end times.
- **"today" and "now"** are parameters.
- **Usage counters** are natural numbers. The code types them as `number` and adds them as doubles, so fractional or negative counts, and sums beyond 2^53, are not modelled.
- **A log file** is modelled as its lines after JSON parsing: a record or
  `Malformed`. A file that cannot be read is `Unreadable`.

**The walk follows the code, not a breadth-first traversal.** One might
expect a breadth-first traversal over all children of the frontier; the code
does something else. After expanding an id, `buildThread` overwrites
`currentUuid` with each child in turn (`src/parser.ts:152`), so the walk
continues only from the *last* child in record order, whatever its type. All
children of the expanded id are still examined for accumulation. The walk
stops at an empty id, at an already expanded id, or at an id without children
(`currentUuid` then stays on the id just expanded). `WalkFrom` defines exactly
this walk, and `LastChildExample` shows a branch being dropped.

## Model

| member | source | states |
|---|---|---|
| `LogTypes.UsageTokens` | src/parser.ts:134-138 | a missing usage counter contributes zero to its field |
| `LogTypes.CountToolUse` | src/parser.ts:141-143 | the `tool_use` count of a block list is at most its length, and it is zero exactly when no block is a `tool_use` block |
| `Pricing.CalculateCost` | src/parser.ts:165-172 | the cost of zero tokens is zero; the cost is at least each counter times its rate |
| `Pricing.CostAdditive` | src/parser.ts:6-11 | the cost of a sum of token totals is the sum of their costs |
| `Pricing.CostMonotone` | src/parser.ts:165-172 | more tokens in every counter never cost less |
| `Pricing.CostOfSumIsSumOfCosts` | src/parser.ts:157 | a thread's cost equals the sum of the costs of its responses priced one at a time |
| `Pricing.WorkedExample` | src/parser.ts:165-172 | (100, 50, 0, 0) plus (200, 0, 10, 5) is (300, 50, 10, 5), which costs $0.001689 |
| `RecordStore.OnDate` | src/parser.ts:66 | a record is on the target date exactly when its timestamp is non-empty and its first characters are the target date |
| `RecordStore.FilterDate` | src/parser.ts:63-73 | the filter keeps at most as many records as there are lines |
| `RecordStore.ParseLogFile` | src/parser.ts:56-80 | the line loop returns the date filter of a readable file's lines, and nothing for an unreadable file |
| `RecordStore.FileEntries` | src/parser.ts:59-79 | an unreadable file contributes no records; every record of a readable file is on the target date |
| `RecordStore.FilterDateMembers` | src/parser.ts:66-68 | a record is kept exactly when it parsed from some line and its timestamp is non-empty and starts with the target date |
| `RecordStore.FilterDateConcat` | src/parser.ts:63-73 | the filter works line by line: filtering two parts of a file and concatenating the results is filtering the whole file, so file order is kept |
| `RecordStore.MalformedLineSkipped` | src/parser.ts:69-72 | a line that does not parse is skipped without affecting the lines before or after it |
| `RecordStore.FilterDateCount` | src/parser.ts:63-73 | the number of kept records is the number of parsed lines on the target date |
| `RecordStore.ProjectEntries` | src/parser.ts:41-45 | the records of a project, its files' records in file order, are all on the target date |
| `RecordStore.MergedEntries` | src/parser.ts:36-46 | the records of all projects, in project order, are all on the target date |
| `RecordStore.GetTodayEntries` | src/parser.ts:31-50 | the result is the stable sort by time of all kept records, merged project by project and file by file |
| `RecordStore.MergedEntriesOnDate` | src/parser.ts:36-46 | every merged record is on the target date and parsed from a line of a readable file of some project |
| `RecordStore.ProjectEntriesFrom` | src/parser.ts:41-45 | every record of a project comes from a readable file of that project, which is returned, and is on the target date |
| `RecordStore.InsertByTime` | src/parser.ts:48-50 | inserting a record after every record of no later time adds exactly one record |
| `RecordStore.SortByTime` | src/parser.ts:48-50 | the stable insertion sort by time keeps the number of records; the lemmas below prove it sorted, a permutation and stable |
| `RecordStore.InsertByTimeSorted` | src/parser.ts:48-50 | inserting into a sorted sequence keeps it sorted by time |
| `RecordStore.SortByTimeSorted` | src/parser.ts:48-50 | the sorted sequence is non-decreasing by time |
| `RecordStore.SortByTimePermutes` | src/parser.ts:48-50 | the sorted sequence is a permutation of the merged records |
| `RecordStore.SortByTimeStable` | src/parser.ts:48-50 | records with equal times keep their relative order |
| `RecordStore.SortedStableUnique` | src/parser.ts:48-50 | two sequences that are both sorted by time and agree on the order within every time are equal |
| `RecordStore.SortIsDetermined` | src/parser.ts:48-50 | any stable sort by time of the merged records gives this result, so the result does not depend on the sorting algorithm |
| `ThreadBuilder.Roots` | src/parser.ts:86-90 | the prompts, kept in record order, are records of the log that satisfy `IsRoot`: a user record with role user and string content |
| `ThreadBuilder.RootsMembers` | src/parser.ts:86-90 | a record is a root exactly when it is a user record with role user and string content; a record with array content is never a root |
| `ThreadBuilder.RootsConcat` | src/parser.ts:86-90 | root selection is a filter that keeps record order |
| `ThreadBuilder.Accepted` | src/parser.ts:130 | an accepted record is an assistant record with usage, and its token counters are those of that usage |
| `ThreadBuilder.Children` | src/parser.ts:127 | the children of an id, in record order, are records whose parent is that id |
| `ThreadBuilder.AcceptedOf` | src/parser.ts:129-131 | the accepted records of a list, in order, are no more than the list |
| `ThreadBuilder.WalkFrom` | src/parser.ts:122-153 | the ids the `while` loop expands are none exactly when the current id is empty or already visited, and otherwise start at the current id |
| `ThreadBuilder.Walk` | src/parser.ts:122-125 | the walk from a prompt starts with an empty visited set at the prompt's uuid, and is empty exactly when that uuid is empty |
| `ThreadBuilder.Gather` | src/parser.ts:125-153 | the responses gathered over the expanded ids, in expansion and record order, are all accepted records, and no ids gather nothing |
| `ThreadBuilder.ThreadOf` | src/parser.ts:105-160 | the thread of a prompt keeps the prompt, starts at its time and ends no earlier; its cost is the sum of its responses' costs; a prompt with an empty uuid has no responses and costs nothing |
| `ThreadBuilder.BuildUserThreads` | src/parser.ts:85-100 | there is one thread per root, in record order, and each is the thread built for that root |
| `ThreadBuilder.BuildThread` | src/parser.ts:105-160 | the loop returns the thread of the walk from the prompt: accumulated responses, totals, tool count, cost and start and end times |
| `ThreadBuilder.ExpandChildren` | src/parser.ts:127-153 | expanding an id appends its accepted children in record order, keeps the running totals equal to the sums over the responses, and moves to the uuid of its last child, or stays when it has none |
| `ThreadBuilder.AccumulateResponse` | src/parser.ts:130-149 | one accepted response is appended, its four counters and its `tool_use` blocks are added, and the end time becomes the later of the two |
| `ThreadBuilder.AccumulateKeepsPartial` | src/parser.ts:130-149 | accumulating an accepted response keeps every running total equal to its sum over the responses so far |
| `ThreadBuilder.AccumulateStep` | src/parser.ts:135-149 | adding one response adds its counters and tool count and takes the later time |
| `ThreadBuilder.NextId` | src/parser.ts:152 | the next id is the current one, which happens when it has no children, or the uuid of some record |
| `ThreadBuilder.LastChildHasUuid` | src/parser.ts:152 | the last child of an expanded id is a record, so its uuid is the uuid of a record |
| `ThreadBuilder.UnexpandedShrinks` | src/parser.ts:125-126 | marking an id visited never increases the number of unvisited record ids, and decreases it when the id is a record's uuid |
| `ThreadBuilder.WalkFromFresh` | src/parser.ts:125-126 | the walk expands only non-empty ids that were not visited before, and each at most once |
| `ThreadBuilder.WalkFromShape` | src/parser.ts:122-153 | the walk is empty exactly for an empty or visited start; it begins at the start id, each later id is a record's uuid and follows from the previous one by the last-child step, and it stops at an empty id, a visited id or an id it already expanded |
| `ThreadBuilder.WalkExpandsEachIdOnce` | src/parser.ts:122-126 | even on cyclic links, the walk from a prompt expands distinct non-empty ids drawn from the prompt's uuid and the records' uuids, so it has at most that many steps |
| `ThreadBuilder.WalkIsWalk` | src/parser.ts:122-153 | the walk from a prompt satisfies the characterisation `IsWalk` |
| `ThreadBuilder.WalkSuffix` | src/parser.ts:122-153 | for any sequence satisfying `IsWalk`, each suffix is the walk from its first id given the ids before it as visited |
| `ThreadBuilder.WalkUnique` | src/parser.ts:122-153 | exactly one id sequence satisfies `IsWalk`, and it is the walk |
| `ThreadBuilder.AcceptedOfConcat` | src/parser.ts:129-131 | the accepted records of a concatenation are those of its parts, in order |
| `ThreadBuilder.AcceptedChildrenMembers` | src/parser.ts:127-131 | a record is an accepted child of an id exactly when it is an assistant record with usage whose parent is that id |
| `ThreadBuilder.GatherMembers` | src/parser.ts:125-153 | a record is gathered exactly when it is accepted and its parent is one of the expanded ids |
| `ThreadBuilder.SelectInAddParent` | src/parser.ts:127-131 | expanding a new id adds exactly the accepted children of that id to the multiset of selected records |
| `ThreadBuilder.SelectInSubMultiset` | src/parser.ts:127-131 | selecting records never produces a record more often than it occurs among the records |
| `ThreadBuilder.GatherMultiset` | src/parser.ts:125-153 | over distinct expanded ids, the gathered responses are, as a multiset, the accepted records whose parent is expanded |
| `ThreadBuilder.ThreadResponses` | src/parser.ts:122-153 | a record is a response exactly when it is an accepted record whose parent the walk expanded, and no record is accumulated more often than it occurs in the log |
| `ThreadBuilder.MaxTimeIsMax` | src/parser.ts:145-149 | the end time is at least the start and every response's time, and is one of them |
| `ThreadBuilder.ThreadAggregates` | src/parser.ts:106-157 | the thread's start time is the prompt's time; its end time is the latest of the prompt's and the responses' times; its cost is that of its totals and the sum of its responses' costs; with no responses, all counters are zero and the end time is the start time |
| `ThreadBuilder.CycleExample` | src/parser.ts:125 | on two records that name each other as parent, the walk expands each once and stops |
| `ThreadBuilder.LastChildExample` | src/parser.ts:152 | when a prompt has an assistant child and a later user child, the walk continues from the later child only, and the assistant child's own children are never reached |
| `DailyAggregator.MinStart` | src/parser.ts:204-206 | the running earliest start never exceeds its sentinel |
| `DailyAggregator.MaxEnd` | src/parser.ts:207-209 | the running latest end is never below its sentinel |
| `DailyAggregator.DailyStatsOf` | src/parser.ts:177-213 | the day statistics count one message per thread, start no later than now and end no earlier than the epoch; with no threads they are the initial record |
| `DailyAggregator.CalculateDailyStats` | src/parser.ts:177-213 | the loop returns the day statistics of the threads: their count, the field-by-field sums, the earliest start and the latest end |
| `DailyAggregator.EmptyDay` | src/parser.ts:193 | for no threads, every counter is zero and the start and end times are the sentinels now and the epoch |
| `DailyAggregator.MinStartIsMin` | src/parser.ts:204-206 | the start fold is at most the sentinel and every thread's start, and is one of them |
| `DailyAggregator.MaxEndIsMax` | src/parser.ts:207-209 | the end fold is at least the sentinel and every thread's end, and is one of them |
| `DailyAggregator.DayBounds` | src/parser.ts:178-209 | the message count is the number of threads; the day starts no later than any thread and ends no earlier than any; each bound is a sentinel or a thread's time |
| `DailyAggregator.SumTokensConcat` | src/parser.ts:198-201 | token and tool sums distribute over concatenation of response lists |
| `DailyAggregator.DayTotals` | src/parser.ts:195-202 | for threads whose counters agree with their responses, the day's exchanges, tools and tokens are those of all responses together, and the day's cost is the cost of its tokens |
| `DailyAggregator.BuiltDayTotals` | src/parser.ts:85-100 | for the threads built from a log, the message count is the number of prompts and the day totals are the sums over all their responses |
| `Ui.Split` | src/ui.ts:260 | splitting gives at least one piece and no piece contains '/' |
| `Ui.JoinSplit` | src/ui.ts:260 | joining the pieces with '/' gives back the string |
| `Ui.SplitLast` | src/ui.ts:259-261 | the last piece is the text after the last '/', or the whole string; it is empty exactly when the string is empty or ends with '/' |
| `Ui.GetProjectName` | src/ui.ts:259-262 | the name contains no '/'; it is "unknown" for an empty path or a trailing '/'; otherwise it is the non-empty end of the path after its last '/' |
| `Ui.ProjectNameAfterLastSlash` | src/parser.ts:218-221 | the name is exactly the text after the last '/', or "unknown" when nothing follows it |
| `Ui.ProjectNameWithoutSlash` | src/ui.ts:259-262 | a non-empty path without '/' is its own name |
| `Ui.ProjectNameExamples` | src/ui.ts:259-262 | "/home/u/proj" names "proj" and "/tmp/" names "unknown" |
| `Ui.TruncateMessage` | src/ui.ts:264-267 | a message that fits is returned unchanged; otherwise the result is its first `maxLength` characters followed by "...", so its length is `maxLength` + 3 |
| `Ui.TruncateBounds` | src/ui.ts:264-267 | every result is at most `maxLength` + 3 long and begins with the message up to the limit |
| `Ui.TruncateIdempotent` | src/ui.ts:264-267 | truncating a second time with the same limit changes nothing |
| `Ui.HasKind` | src/ui.ts:270-271 | content has a `tool_use` block exactly when its `tool_use` count is positive |
| `Ui.GetResponseTypeIcon` | src/ui.ts:269-276 | the text-and-tool icon exactly when both block kinds occur, the tool icon exactly when only tool blocks occur, and the text icon exactly when no tool block occurs |
| `Ui.IconMatchesToolCount` | src/ui.ts:269-276 | the icon shows a tool exactly when the builder's `tool_use` count is positive; empty content shows the text icon |
| `Ui.TallyStep` | src/ui.ts:292-294 | one block increments its name's count, or adds the name with count 1, when it is a named `tool_use` block, and changes nothing otherwise |
| `Ui.TallyBlocks` | src/ui.ts:291-295 | the inner loop extends the tallies of the blocks so far by those of one response's blocks |
| `Ui.CountNamed` | src/ui.ts:292-294 | the count of `tool_use` blocks with a given name is at most the number of `tool_use` blocks, and zero for the empty name |
| `Ui.GetToolBreakdown` | src/ui.ts:285-297 | a name is a key exactly when some named `tool_use` block carries it, and its count is the number of such blocks |
| `Ui.CountNamedPositive` | src/ui.ts:292 | a name has a positive count exactly when a `tool_use` block with that non-empty name exists |
| `Ui.BreakdownEmpty` | src/ui.ts:299-303 | the breakdown is empty exactly when no response has a named `tool_use` block |
| `Ui.ToolBlocksCount` | src/ui.ts:288-291 | the breakdown scans the same blocks whose `tool_use` blocks the thread's tool count counts |
| `Ui.SumNamedBounded` | src/ui.ts:291-295 | over distinct names, the counts add up to at most the number of `tool_use` blocks |
| `Ui.BreakdownBounded` | src/ui.ts:285-297 | over any distinct names, the breakdown's counts add up to at most the thread's tool count |
| `Ui.ResponseCost` | src/ui.ts:181-186 | the per-response figure as written is never below the price of the response's counters, and equals it exactly when there are no cache-read tokens |
| `Ui.CacheReadOvercharge` | src/ui.ts:185 | one million cache-read tokens are shown as $3.75 where the price is $0.30 |
| `Ui.CorrectedResponseCost` | src/ui.ts:182-186 | with each counter at its own rate, the figure is below the as-written one by the cache-read tokens times the difference of the two cache rates |
| `Ui.CorrectedSum` | src/ui.ts:173-186 | the corrected figures of a response list add up to the sum of its costs, which the as-written figures never undercut |
| `Ui.ResponseCostsAddUp` | src/ui.ts:181-186 | the corrected figures of a thread's responses add up to the thread's cost, and the as-written figures add up to at least it |

## Left out

- File system access is not modelled: `existsSync`, `readdirSync`, the directory and `.jsonl` filters, `readFileSync`, `homedir`, the warning for an unreadable file, and the error thrown when the projects directory is missing. The projects are given as a sequence of files, each a sequence of lines.
- `JSON.parse` is not modelled: each line is given already parsed, or as `Malformed`.
- Date parsing and the clock are not modelled. Each record carries its parsed instant as `time`, and "today" and "now" are parameters. An unparsable timestamp, which yields NaN in the sort comparator and in the time comparisons, is not modelled.
- `Array.prototype.sort` is modelled by a stable insertion sort. `RecordStore.SortIsDetermined` proves that any stable sort by time gives the same result.
- Floating point is not modelled: costs are exact integers in 10^-8 dollars, and `toFixed` rounding is not modelled.
- Lengths are counted in characters, not UTF-16 code units, so `Ui.TruncateMessage` may split a surrogate pair differently from the code.
- `Ui.GetToolBreakdown`: the map is modelled, but not the key order of `Object.entries`, the final `name: countx` join, or names such as `__proto__` that a plain object treats specially.
- `Ui.TruncateMessage`: `maxLength` is a `nat`; the negative limits `substring` would clamp are not modelled, and the callers pass 50, 60 and 100.
- `Ui.ResponseCost`: the figure is read from `usage`, which every response has; the code would throw on a response without `usage`, but such records are never accumulated.
- Records are assumed to have the shape of `src/types.ts`: every record has a `message`, and a `usage` that is present is an object. The code does not check this. A message-less record such as `{"type":"user","timestamp":"<today>T…"}` is kept by the date filter, which tests only the timestamp (src/parser.ts:66). `buildUserThreads` then throws on `entry.message.role` (src/parser.ts:88). `buildThread` throws likewise on a message-less assistant child (`'usage' in response.message`, src/parser.ts:130) and on `"usage": null` (src/parser.ts:135). The exception reaches the handler in `src/index.ts`, which exits with status 1, so one such line stops the whole day's report, unlike the per-line skip of unparsable lines (src/parser.ts:69-72). These failures are not modelled.
- The values of `Message.content` beyond what the code reads are not modelled. Text, `tool_use` input and `tool_result` payloads are left out, and a block keeps only its type and tool name.
- All presentation is not modelled: the `inquirer` menus, `chalk` colours, console output, `formatToolInput`, time formatting, and the average and duration arithmetic in `src/ui.ts`.
- `src/index.ts` is not part of this model: argument handling, `process.exit` and signal handlers.

## Findings

| source | as written | input that shows it | evidently intended | confidence | as-written member | corrected member |
|---|---|---|---|---|---|---|
| src/ui.ts:185 | the per-response cost bills cache-read tokens at the cache-creation rate, $3.75 per million | a response whose usage has only `cache_read_input_tokens: 1000000` is shown as $3.750000, while its thread cost (src/parser.ts:10) counts $0.300000 | cache-read tokens at $0.30 per million, as in `calculateCost`, so that the figures under a thread's responses add up to the thread's cost | not executed | `Ui.ResponseCost`, `Ui.CacheReadOvercharge` | `Ui.CorrectedResponseCost`, `Ui.ResponseCostsAddUp` |
