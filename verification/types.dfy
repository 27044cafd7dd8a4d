/** The log record, thread and day-statistics shapes of the history viewer,
    with the per-response quantities that the thread builder and the UI read. */
module LogTypes {

  datatype Option<T> = None | Some(value: T)

  /** The record's `type` field. */
  datatype EntryType = User | Assistant

  /** The message's `role` field. */
  datatype Role = UserRole | AssistantRole

  /** The `type` of one content block: `text` and `tool_use` blocks appear in
      assistant messages, `tool_result` blocks in user tool-result echoes. */
  datatype BlockType = Text | ToolUse | ToolResult

  /** One content block; `name` is the tool name, "" when absent. */
  datatype Block = Block(kind: BlockType, name: string)

  /** A message's `content`: plain text (a genuine user prompt) or an array of blocks. */
  datatype Content = Plain(text: string) | Blocks(items: seq<Block>)

  /** The `usage` object; every counter may be absent from the record. */
  datatype Usage = Usage(
    inputTokens: Option<nat>,
    outputTokens: Option<nat>,
    cacheCreationInputTokens: Option<nat>,
    cacheReadInputTokens: Option<nat>)

  /** `usage` is present only on assistant messages that carry it. */
  datatype Message = Message(role: Role, content: Content, usage: Option<Usage>)

  /** One log line. `timestamp` is the raw ISO-8601 string that the date
      filter tests; `time` is the instant it denotes, once parsed. */
  datatype LogEntry = LogEntry(
    parentUuid: Option<string>,
    cwd: string,
    kind: EntryType,
    message: Message,
    uuid: string,
    timestamp: string,
    time: int)

  /** The four token counters. */
  datatype TokenTotals = TokenTotals(input: nat, output: nat, cacheCreation: nat, cacheRead: nat)

  /** One user prompt with the assistant responses found for it. Costs are in
      units of 10^-8 dollars. */
  datatype UserThread = UserThread(
    user: LogEntry,
    responses: seq<LogEntry>,
    tools: nat,
    totalTokens: TokenTotals,
    cost: nat,
    startTime: int,
    endTime: int)

  datatype DailyStats = DailyStats(
    userMessages: nat,
    totalExchanges: nat,
    toolsUsed: nat,
    totalTokens: TokenTotals,
    totalCost: nat,
    startTime: int,
    endTime: int)

  const ZeroTokens := TokenTotals(0, 0, 0, 0)

  /** `x || 0` on an optional counter. */
  function OrZero(x: Option<nat>): nat {
    if x.Some? then x.value else 0
  }

  function AddTokens(a: TokenTotals, b: TokenTotals): TokenTotals {
    TokenTotals(a.input + b.input, a.output + b.output,
                a.cacheCreation + b.cacheCreation, a.cacheRead + b.cacheRead)
  }

  /** The counters one `usage` object contributes, missing ones as zero. */
  function UsageTokens(u: Usage): (t: TokenTotals)
    ensures u.inputTokens == None ==> t.input == 0
    ensures u.outputTokens == None ==> t.output == 0
    ensures u.cacheCreationInputTokens == None ==> t.cacheCreation == 0
    ensures u.cacheReadInputTokens == None ==> t.cacheRead == 0
  {
    TokenTotals(OrZero(u.inputTokens), OrZero(u.outputTokens),
                OrZero(u.cacheCreationInputTokens), OrZero(u.cacheReadInputTokens))
  }

  /** The counters one record contributes: zero when it has no `usage`. */
  function EntryTokens(e: LogEntry): TokenTotals {
    if e.message.usage.Some? then UsageTokens(e.message.usage.value) else ZeroTokens
  }

  /** The content blocks of a record, none when its content is not an array. */
  function BlocksOf(e: LogEntry): seq<Block> {
    if e.message.content.Blocks? then e.message.content.items else []
  }

  /** Number of `tool_use` blocks in a block list. */
  function CountToolUse(bs: seq<Block>): (n: nat)
    ensures n <= |bs|
    ensures n == 0 <==> forall i :: 0 <= i < |bs| ==> bs[i].kind != ToolUse
  {
    if bs == [] then 0
    else CountToolUse(bs[..|bs| - 1]) + (if bs[|bs| - 1].kind == ToolUse then 1 else 0)
  }

  /** Number of `tool_use` blocks of one record. */
  function ToolUseCount(e: LogEntry): nat {
    CountToolUse(BlocksOf(e))
  }

  function Last<T>(s: seq<T>): T
    requires s != []
  {
    s[|s| - 1]
  }

  function DropLast<T>(s: seq<T>): seq<T>
    requires s != []
  {
    s[..|s| - 1]
  }

  /** Sum of the counters of a sequence of records. */
  function SumTokens(rs: seq<LogEntry>): TokenTotals {
    if rs == [] then ZeroTokens else AddTokens(SumTokens(DropLast(rs)), EntryTokens(Last(rs)))
  }

  /** Total number of `tool_use` blocks of a sequence of records. */
  function SumTools(rs: seq<LogEntry>): nat {
    if rs == [] then 0 else SumTools(DropLast(rs)) + ToolUseCount(Last(rs))
  }

  /** The latest of `start` and the times of `rs`. */
  function MaxTime(start: int, rs: seq<LogEntry>): int {
    if rs == [] then start
    else var m := MaxTime(start, DropLast(rs)); if Last(rs).time > m then Last(rs).time else m
  }

  lemma AppendOne<T>(s: seq<T>, x: T)
    ensures s + [x] != [] && DropLast(s + [x]) == s && Last(s + [x]) == x
  {
    assert (s + [x])[..|s|] == s;
  }

  lemma AppendAssoc<T>(a: seq<T>, b: seq<T>, c: seq<T>)
    ensures (a + b) + c == a + (b + c)
  {
  }
}
