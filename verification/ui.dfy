/** The pure helpers of the terminal front end: the project name shown next
    to a prompt, message truncation, the icon of a response, the per-name tool
    breakdown of a thread and the cost printed under each response. */
module Ui {
  import opened LogTypes
  import opened Pricing
  import opened ThreadBuilder

  // ---------------------------------------------------------------------------
  // Project name

  /** `s.split('/')`: the pieces between the slashes, in order; there is
      always at least one, and an empty string gives the single piece "". */
  function Split(s: string): (parts: seq<string>)
    ensures |parts| >= 1
    ensures forall i :: 0 <= i < |parts| ==> '/' !in parts[i]
  {
    if s == [] then [""]
    else if Last(s) == '/' then Split(DropLast(s)) + [""]
    else var p := Split(DropLast(s)); DropLast(p) + [Last(p) + [Last(s)]]
  }

  /** `parts.join('/')`. */
  function Join(parts: seq<string>): string
    requires |parts| >= 1
  {
    if |parts| == 1 then parts[0] else Join(DropLast(parts)) + "/" + Last(parts)
  }

  lemma {:induction false} JoinExtendLast(p: seq<string>, c: char)
    requires |p| >= 1
    ensures Join(DropLast(p) + [Last(p) + [c]]) == Join(p) + [c]
  {
    var q := DropLast(p) + [Last(p) + [c]];
    AppendOne(DropLast(p), Last(p) + [c]);
    if |p| > 1 {
      assert Join(q) == Join(DropLast(p)) + "/" + (Last(p) + [c]);
    }
  }

  /** Joining the pieces with '/' gives back the string. */
  lemma {:induction false} JoinSplit(s: string)
    ensures Join(Split(s)) == s
  {
    if s != [] {
      var p := Split(DropLast(s));
      JoinSplit(DropLast(s));
      if Last(s) == '/' {
        AppendOne(p, "");
      } else {
        JoinExtendLast(p, Last(s));
      }
      assert DropLast(s) + [Last(s)] == s;
    }
  }

  /** The last piece of the split is the text after the last '/', or the
      whole string when it has none; it is empty exactly when the string is
      empty or ends with '/'. */
  lemma {:induction false} SplitLast(s: string)
    ensures var t := Last(Split(s));
      && |t| <= |s| && t == s[|s| - |t|..]
      && (|t| == |s| || s[|s| - |t| - 1] == '/')
      && (t == [] <==> s == [] || Last(s) == '/')
  {
    if s != [] {
      LastPieceStep(s);
      if Last(s) != '/' {
        var front := DropLast(s);
        SplitLast(front);
        var t := Last(Split(front));
        assert front[|front| - |t|..] + [Last(s)] == s[|s| - |t| - 1..] by {
          assert s == front + [Last(s)];
        }
      }
    }
  }

  /** How the last piece grows by one character. */
  lemma LastPieceStep(s: string)
    requires s != []
    ensures Last(Split(s)) == if Last(s) == '/' then "" else Last(Split(DropLast(s))) + [Last(s)]
  {
    var p := Split(DropLast(s));
    if Last(s) == '/' {
      AppendOne(p, "");
    } else {
      AppendOne(DropLast(p), Last(p) + [Last(s)]);
    }
  }

  /** `getProjectName`: the last '/'-separated piece of `cwd`, or "unknown"
      when that piece is empty. */
  function GetProjectName(cwd: string): (name: string)
    ensures '/' !in name
    ensures cwd == [] || Last(cwd) == '/' ==> name == "unknown"
    ensures cwd != [] && Last(cwd) != '/' ==>
      && name != [] && |name| <= |cwd| && name == cwd[|cwd| - |name|..]
      && (|name| == |cwd| || cwd[|cwd| - |name| - 1] == '/')
  {
    SplitLast(cwd);
    var parts := Split(cwd);
    assert '/' !in parts[|parts| - 1];
    if Last(parts) != "" then Last(parts) else "unknown"
  }

  /** The name is the text after the last '/' of `cwd`, "unknown" when
      nothing follows that '/'. */
  lemma ProjectNameAfterLastSlash(cwd: string, k: nat)
    requires k < |cwd| && cwd[k] == '/'
    requires forall j :: k < j < |cwd| ==> cwd[j] != '/'
    ensures GetProjectName(cwd) == if k == |cwd| - 1 then "unknown" else cwd[k + 1..]
  {
    if k < |cwd| - 1 {
      var t := GetProjectName(cwd);
      assert |t| == |cwd| - k - 1;
    }
  }

  /** Without any '/', the whole non-empty `cwd` is the name. */
  lemma ProjectNameWithoutSlash(cwd: string)
    requires cwd != [] && '/' !in cwd
    ensures GetProjectName(cwd) == cwd
  {
    var t := GetProjectName(cwd);
    assert |t| == |cwd|;
  }

  /** A nested project directory and a trailing slash. */
  lemma ProjectNameExamples()
    ensures GetProjectName("/home/u/proj") == "proj"
    ensures GetProjectName("/tmp/") == "unknown"
  {
    ProjectNameAfterLastSlash("/home/u/proj", 7);
    assert "/home/u/proj"[8..] == "proj";
  }

  // ---------------------------------------------------------------------------
  // Truncation

  /** `truncateMessage`: the message itself when it fits, otherwise its
      first `maxLength` characters followed by "...". */
  function TruncateMessage(message: string, maxLength: nat): (r: string)
    ensures |message| <= maxLength ==> r == message
    ensures |message| > maxLength ==>
      |r| == maxLength + 3 && r[..maxLength] == message[..maxLength] && r[maxLength..] == "..."
  {
    if |message| <= maxLength then message else message[..maxLength] + "..."
  }

  /** Every result is at most three characters longer than the limit and
      begins with the message up to the limit. */
  lemma TruncateBounds(message: string, maxLength: nat)
    ensures var r := TruncateMessage(message, maxLength);
      var k := if |message| < maxLength then |message| else maxLength;
      |r| <= maxLength + 3 && k <= |r| && r[..k] == message[..k]
  {
  }

  /** Truncating a second time with the same limit changes nothing. */
  lemma TruncateIdempotent(message: string, maxLength: nat)
    ensures TruncateMessage(TruncateMessage(message, maxLength), maxLength) == TruncateMessage(message, maxLength)
  {
    var r := TruncateMessage(message, maxLength);
    if |message| > maxLength {
      assert r[..maxLength] + "..." == r;
    }
  }

  // ---------------------------------------------------------------------------
  // Response icon

  const BothIcon := "[\U{1F4AC}+\U{1F6E0}\U{FE0F}]"
  const ToolsIcon := "[\U{1F6E0}\U{FE0F}]"
  const TextIcon := "[\U{1F4AC}]"

  /** `content.some(c => c.type === kind)`. */
  predicate HasKind(content: seq<Block>, kind: BlockType)
    ensures kind == ToolUse ==> (HasKind(content, kind) <==> CountToolUse(content) > 0)
  {
    exists i :: 0 <= i < |content| && content[i].kind == kind
  }

  /** `getResponseTypeIcon`: one of three icons, chosen by whether the
      content has text blocks and whether it has tool_use blocks. */
  function GetResponseTypeIcon(content: seq<Block>): (icon: string)
    ensures icon == BothIcon <==> HasKind(content, Text) && HasKind(content, ToolUse)
    ensures icon == ToolsIcon <==> !HasKind(content, Text) && HasKind(content, ToolUse)
    ensures icon == TextIcon <==> !HasKind(content, ToolUse)
  {
    assert BothIcon != ToolsIcon && BothIcon != TextIcon && ToolsIcon != TextIcon by {
      assert |BothIcon| != |ToolsIcon| && ToolsIcon[1] != TextIcon[1] && |BothIcon| != |TextIcon|;
    }
    var hasText := HasKind(content, Text);
    var hasTools := HasKind(content, ToolUse);
    if hasText && hasTools then BothIcon
    else if hasTools then ToolsIcon
    else TextIcon
  }

  /** The icon shows a tool exactly when the response's tool count, as the
      thread builder counts it, is positive; empty content shows text. */
  lemma IconMatchesToolCount(content: seq<Block>)
    ensures GetResponseTypeIcon(content) != TextIcon <==> CountToolUse(content) > 0
    ensures content == [] ==> GetResponseTypeIcon(content) == TextIcon
  {
  }

  // ---------------------------------------------------------------------------
  // Tool breakdown

  /** The content blocks of all responses, response after response; a
      response whose content is not an array contributes none. */
  function ToolBlocks(rs: seq<LogEntry>): seq<Block> {
    if rs == [] then [] else ToolBlocks(DropLast(rs)) + BlocksOf(Last(rs))
  }

  /** Whether `b` is a `tool_use` block whose non-empty name is `name`. */
  function Hit(b: Block, name: string): nat {
    if b.kind == ToolUse && b.name != "" && b.name == name then 1 else 0
  }

  /** Number of `tool_use` blocks of `bs` named `name` (never the empty name). */
  function CountNamed(bs: seq<Block>, name: string): (n: nat)
    ensures n <= CountToolUse(bs)
    ensures name == "" ==> n == 0
  {
    if bs == [] then 0 else CountNamed(DropLast(bs), name) + Hit(Last(bs), name)
  }

  /** `tools` holds, for every name that occurs among the named tool_use
      blocks of `bs`, its number of occurrences, and no other key. */
  ghost predicate Tallies(tools: map<string, nat>, bs: seq<Block>) {
    && (forall name :: name in tools <==> CountNamed(bs, name) > 0)
    && (forall name :: name in tools ==> tools[name] == CountNamed(bs, name))
  }

  /** `tools[item.name] = (tools[item.name] || 0) + 1` for a named tool_use
      block, nothing for any other block. */
  lemma TallyStep(tools: map<string, nat>, bs: seq<Block>, b: Block)
    requires Tallies(tools, bs)
    ensures b.kind == ToolUse && b.name != "" ==>
      Tallies(tools[b.name := (if b.name in tools then tools[b.name] else 0) + 1], bs + [b])
    ensures !(b.kind == ToolUse && b.name != "") ==> Tallies(tools, bs + [b])
  {
    AppendOne(bs, b);
  }

  /** The inner loop of `getToolBreakdown`: the blocks of one response
      added to the tallies of the blocks before it. */
  method TallyBlocks(tools: map<string, nat>, ghost before: seq<Block>, content: seq<Block>)
    returns (next: map<string, nat>)
    requires Tallies(tools, before)
    ensures Tallies(next, before + content)
  {
    next := tools;
    assert before + content[..0] == before;
    for j := 0 to |content|
      invariant Tallies(next, before + content[..j])
    {
      var item := content[j];
      TallyStep(next, before + content[..j], item);
      assert before + content[..j + 1] == (before + content[..j]) + [item];
      if item.kind == ToolUse && item.name != "" {
        next := next[item.name := (if item.name in next then next[item.name] else 0) + 1];
      }
    }
    assert content[..|content|] == content;
  }

  /** `getToolBreakdown`'s counting: for every tool_use block with a
      non-empty name, one more for that name. A name is a key exactly when
      it occurs, and its count is the number of its blocks. */
  method GetToolBreakdown(responses: seq<LogEntry>) returns (tools: map<string, nat>)
    ensures forall name :: name in tools <==> CountNamed(ToolBlocks(responses), name) > 0
    ensures forall name :: name in tools ==> tools[name] == CountNamed(ToolBlocks(responses), name)
  {
    tools := map[];
    for i := 0 to |responses|
      invariant Tallies(tools, ToolBlocks(responses[..i]))
    {
      var response := responses[i];
      ToolBlocksStep(responses, i);
      if response.message.content.Blocks? {
        tools := TallyBlocks(tools, ToolBlocks(responses[..i]), response.message.content.items);
      } else {
        assert ToolBlocks(responses[..i]) + [] == ToolBlocks(responses[..i]);
      }
    }
    assert responses[..|responses|] == responses;
  }

  lemma ToolBlocksStep(rs: seq<LogEntry>, i: nat)
    requires i < |rs|
    ensures ToolBlocks(rs[..i + 1]) == ToolBlocks(rs[..i]) + BlocksOf(rs[i])
  {
    AppendOne(rs[..i], rs[i]);
    assert rs[..i + 1] == rs[..i] + [rs[i]];
  }

  /** A name is counted exactly when a named tool_use block carries it. */
  lemma {:induction false} CountNamedPositive(bs: seq<Block>, name: string)
    ensures CountNamed(bs, name) > 0 <==>
      exists i :: 0 <= i < |bs| && bs[i].kind == ToolUse && bs[i].name != "" && bs[i].name == name
  {
    if bs != [] {
      CountNamedPositive(DropLast(bs), name);
      assert forall i :: 0 <= i < |bs| - 1 ==> bs[i] == DropLast(bs)[i];
    }
  }

  /** The breakdown is empty exactly when no response has a named tool_use block. */
  lemma BreakdownEmpty(responses: seq<LogEntry>, tools: map<string, nat>)
    requires forall name :: name in tools <==> CountNamed(ToolBlocks(responses), name) > 0
    ensures tools == map[] ==>
      forall i :: 0 <= i < |ToolBlocks(responses)| ==> ToolBlocks(responses)[i].kind != ToolUse || ToolBlocks(responses)[i].name == ""
    ensures tools != map[] ==>
      exists i :: 0 <= i < |ToolBlocks(responses)| && ToolBlocks(responses)[i].kind == ToolUse && ToolBlocks(responses)[i].name != ""
  {
    var bs := ToolBlocks(responses);
    if tools == map[] {
      forall i | 0 <= i < |bs| ensures bs[i].kind != ToolUse || bs[i].name == "" {
        CountNamedPositive(bs, bs[i].name);
      }
    } else {
      var name :| name in tools;
      CountNamedPositive(bs, name);
      var i :| 0 <= i < |bs| && bs[i].kind == ToolUse && bs[i].name != "" && bs[i].name == name;
      assert !(bs[i].kind != ToolUse || bs[i].name == "");
    }
  }

  /** The tool count of the thread builder counts the same blocks. */
  lemma {:induction false} CountToolUseConcat(a: seq<Block>, b: seq<Block>)
    ensures CountToolUse(a + b) == CountToolUse(a) + CountToolUse(b)
    decreases |b|
  {
    if b == [] {
      assert a + b == a;
    } else {
      var front := DropLast(b);
      assert a + b == (a + front) + [Last(b)] by {
        assert b == front + [Last(b)];
        AppendAssoc(a, front, [Last(b)]);
      }
      CountToolUseConcat(a, front);
      assert DropLast(a + b) == a + front;
    }
  }

  lemma {:induction false} ToolBlocksCount(rs: seq<LogEntry>)
    ensures CountToolUse(ToolBlocks(rs)) == SumTools(rs)
  {
    if rs != [] {
      ToolBlocksCount(DropLast(rs));
      CountToolUseConcat(ToolBlocks(DropLast(rs)), BlocksOf(Last(rs)));
    }
  }

  /** The sum over the names `ns` of the blocks each one counts. */
  function SumNamed(ns: seq<string>, bs: seq<Block>): nat {
    if ns == [] then 0 else SumNamed(DropLast(ns), bs) + CountNamed(bs, Last(ns))
  }

  /** The hits of one block over the names `ns`. */
  function SumHits(ns: seq<string>, b: Block): nat {
    if ns == [] then 0 else SumHits(DropLast(ns), b) + Hit(b, Last(ns))
  }

  lemma {:induction false} SumHitsDistinct(ns: seq<string>, b: Block)
    requires forall i, j :: 0 <= i < j < |ns| ==> ns[i] != ns[j]
    ensures SumHits(ns, b) == if b.kind == ToolUse && b.name != "" && b.name in ns then 1 else 0
  {
    if ns != [] {
      var front := DropLast(ns);
      assert forall i, j :: 0 <= i < j < |front| ==> front[i] != front[j] by {
        assert forall i :: 0 <= i < |front| ==> front[i] == ns[i];
      }
      SumHitsDistinct(front, b);
      assert Last(ns) !in front by {
        assert forall i :: 0 <= i < |front| ==> front[i] == ns[i];
      }
      assert ns == front + [Last(ns)];
    }
  }

  lemma {:induction false} SumNamedStep(ns: seq<string>, bs: seq<Block>)
    requires bs != []
    ensures SumNamed(ns, bs) == SumNamed(ns, DropLast(bs)) + SumHits(ns, Last(bs))
  {
    if ns != [] {
      SumNamedStep(DropLast(ns), bs);
    }
  }

  lemma {:induction false} SumNamedBounded(ns: seq<string>, bs: seq<Block>)
    requires forall i, j :: 0 <= i < j < |ns| ==> ns[i] != ns[j]
    ensures SumNamed(ns, bs) <= CountToolUse(bs)
  {
    if bs == [] {
      SumNamedEmpty(ns);
    } else {
      SumNamedBounded(ns, DropLast(bs));
      SumNamedStep(ns, bs);
      SumHitsDistinct(ns, Last(bs));
    }
  }

  lemma {:induction false} SumNamedEmpty(ns: seq<string>)
    ensures SumNamed(ns, []) == 0
  {
    if ns != [] {
      SumNamedEmpty(DropLast(ns));
    }
  }

  /** Over any list of distinct names, the breakdown's counts add up to at
      most the thread's tool count. */
  lemma BreakdownBounded(responses: seq<LogEntry>, ns: seq<string>)
    requires forall i, j :: 0 <= i < j < |ns| ==> ns[i] != ns[j]
    ensures SumNamed(ns, ToolBlocks(responses)) <= SumTools(responses)
  {
    SumNamedBounded(ns, ToolBlocks(responses));
    ToolBlocksCount(responses);
  }

  // ---------------------------------------------------------------------------
  // Cost shown under each response

  /** The usage of a response, all counters absent when it has none. */
  function UsageOf(e: LogEntry): Usage {
    if e.message.usage.Some? then e.message.usage.value else Usage(None, None, None, None)
  }

  /** The per-response cost as written: cache-read tokens are billed at the
      cache-creation rate. It is never below the price of the same counters,
      and equals it exactly when no cache-read tokens are counted. */
  function ResponseCost(u: Usage): (c: nat)
    ensures c >= CalculateCost(UsageTokens(u))
    ensures c == CalculateCost(UsageTokens(u)) <==> OrZero(u.cacheReadInputTokens) == 0
  {
    OrZero(u.inputTokens) * InputRate + OrZero(u.outputTokens) * OutputRate
    + (OrZero(u.cacheCreationInputTokens) + OrZero(u.cacheReadInputTokens)) * CacheCreationRate
  }

  /** One million cache-read tokens show as $3.75 where the price is $0.30. */
  lemma CacheReadOvercharge()
    ensures var u := Usage(None, None, None, Some(1000000));
      ResponseCost(u) == 375000000 && CalculateCost(UsageTokens(u)) == 30000000
  {
  }

  /** The per-response cost with each counter at its own rate: the price of
      the response's counters, below the as-written figure by the cache-read
      tokens times the difference of the two cache rates. */
  function CorrectedResponseCost(u: Usage): (c: nat)
    ensures c + OrZero(u.cacheReadInputTokens) * (CacheCreationRate - CacheReadRate) == ResponseCost(u)
  {
    OrZero(u.inputTokens) * InputRate + OrZero(u.outputTokens) * OutputRate
    + OrZero(u.cacheCreationInputTokens) * CacheCreationRate + OrZero(u.cacheReadInputTokens) * CacheReadRate
  }

  function SumResponseCosts(rs: seq<LogEntry>): nat {
    if rs == [] then 0 else SumResponseCosts(DropLast(rs)) + ResponseCost(UsageOf(Last(rs)))
  }

  function SumCorrectedCosts(rs: seq<LogEntry>): nat {
    if rs == [] then 0 else SumCorrectedCosts(DropLast(rs)) + CorrectedResponseCost(UsageOf(Last(rs)))
  }

  lemma {:induction false} CorrectedSum(rs: seq<LogEntry>)
    ensures SumCorrectedCosts(rs) == SumEntryCosts(rs) <= SumResponseCosts(rs)
  {
    if rs != [] {
      CorrectedSum(DropLast(rs));
      var e := Last(rs);
      assert CorrectedResponseCost(UsageOf(e)) == CalculateCost(EntryTokens(e));
    }
  }

  /** With the corrected figure, the costs shown under a thread's responses
      add up to the thread's cost; the figures as written add up to at least it. */
  lemma ResponseCostsAddUp(root: LogEntry, entries: seq<LogEntry>)
    ensures var t := ThreadOf(root, entries);
      SumCorrectedCosts(t.responses) == t.cost <= SumResponseCosts(t.responses)
  {
    ThreadAggregates(root, entries);
    CorrectedSum(ThreadOf(root, entries).responses);
  }
}
