/** The day totals of `calculateDailyStats`: counters summed over the
    threads, the earliest start and the latest end. `now` stands for the
    wall-clock instant that seeds the start sentinel; the end sentinel is the
    epoch, 0. */
module DailyAggregator {
  import opened LogTypes
  import opened Pricing
  import opened ThreadBuilder

  /** Total number of responses of `ts`. */
  function SumExchanges(ts: seq<UserThread>): nat {
    if ts == [] then 0 else SumExchanges(DropLast(ts)) + |Last(ts).responses|
  }

  function SumThreadTools(ts: seq<UserThread>): nat {
    if ts == [] then 0 else SumThreadTools(DropLast(ts)) + Last(ts).tools
  }

  function SumThreadTokens(ts: seq<UserThread>): TokenTotals {
    if ts == [] then ZeroTokens else AddTokens(SumThreadTokens(DropLast(ts)), Last(ts).totalTokens)
  }

  function SumThreadCosts(ts: seq<UserThread>): nat {
    if ts == [] then 0 else SumThreadCosts(DropLast(ts)) + Last(ts).cost
  }

  /** The earliest of `start` and the start times of `ts`. */
  function MinStart(start: int, ts: seq<UserThread>): (m: int)
    ensures m <= start
  {
    if ts == [] then start
    else var m := MinStart(start, DropLast(ts)); if Last(ts).startTime < m then Last(ts).startTime else m
  }

  /** The latest of `end` and the end times of `ts`. */
  function MaxEnd(end: int, ts: seq<UserThread>): (m: int)
    ensures m >= end
  {
    if ts == [] then end
    else var m := MaxEnd(end, DropLast(ts)); if Last(ts).endTime > m then Last(ts).endTime else m
  }

  /** The statistics of a day whose threads are `ts`. */
  function DailyStatsOf(ts: seq<UserThread>, now: int): (s: DailyStats)
    ensures s.userMessages == |ts| && s.startTime <= now && s.endTime >= 0
    ensures ts == [] ==> s == DailyStats(0, 0, 0, ZeroTokens, 0, now, 0)
  {
    DailyStats(|ts|, SumExchanges(ts), SumThreadTools(ts), SumThreadTokens(ts), SumThreadCosts(ts),
               MinStart(now, ts), MaxEnd(0, ts))
  }

  lemma DailyStep(ts: seq<UserThread>, i: nat, now: int)
    requires i < |ts|
    ensures var s := DailyStatsOf(ts[..i], now);
      var t := ts[i];
      DailyStatsOf(ts[..i + 1], now) == s.(
        userMessages := i + 1,
        totalExchanges := s.totalExchanges + |t.responses|,
        toolsUsed := s.toolsUsed + t.tools,
        totalTokens := AddTokens(s.totalTokens, t.totalTokens),
        totalCost := s.totalCost + t.cost,
        startTime := if t.startTime < s.startTime then t.startTime else s.startTime,
        endTime := if t.endTime > s.endTime then t.endTime else s.endTime)
  {
    AppendOne(ts[..i], ts[i]);
    assert ts[..i + 1] == ts[..i] + [ts[i]];
  }

  /** `calculateDailyStats`: the record starts with the thread count, zero
      counters and the sentinels `now` and 0, is returned as is for an empty
      day, and otherwise accumulates every thread field by field. */
  method CalculateDailyStats(threads: seq<UserThread>, now: int) returns (stats: DailyStats)
    ensures stats == DailyStatsOf(threads, now)
  {
    stats := DailyStats(|threads|, 0, 0, ZeroTokens, 0, now, 0);

    if |threads| == 0 {
      return;
    }

    for i := 0 to |threads|
      invariant stats == DailyStatsOf(threads[..i], now).(userMessages := |threads|)
    {
      var thread := threads[i];
      DailyStep(threads, i, now);
      stats := stats.(totalExchanges := stats.totalExchanges + |thread.responses|);
      stats := stats.(toolsUsed := stats.toolsUsed + thread.tools);
      stats := stats.(totalTokens := TokenTotals(
        stats.totalTokens.input + thread.totalTokens.input,
        stats.totalTokens.output + thread.totalTokens.output,
        stats.totalTokens.cacheCreation + thread.totalTokens.cacheCreation,
        stats.totalTokens.cacheRead + thread.totalTokens.cacheRead));
      stats := stats.(totalCost := stats.totalCost + thread.cost);

      if thread.startTime < stats.startTime {
        stats := stats.(startTime := thread.startTime);
      }
      if thread.endTime > stats.endTime {
        stats := stats.(endTime := thread.endTime);
      }
    }
    assert threads[..|threads|] == threads;
  }

  // ---------------------------------------------------------------------------
  // Properties

  /** An empty day: all counters zero and the two sentinels. */
  lemma EmptyDay(now: int)
    ensures DailyStatsOf([], now) == DailyStats(0, 0, 0, ZeroTokens, 0, now, 0)
  {
  }

  lemma {:induction false} MinStartIsMin(start: int, ts: seq<UserThread>)
    ensures MinStart(start, ts) <= start
    ensures forall i :: 0 <= i < |ts| ==> MinStart(start, ts) <= ts[i].startTime
    ensures MinStart(start, ts) == start || exists i :: 0 <= i < |ts| && ts[i].startTime == MinStart(start, ts)
  {
    if ts != [] {
      MinStartIsMin(start, DropLast(ts));
      assert forall i :: 0 <= i < |ts| - 1 ==> ts[i] == DropLast(ts)[i];
    }
  }

  lemma {:induction false} MaxEndIsMax(end: int, ts: seq<UserThread>)
    ensures MaxEnd(end, ts) >= end
    ensures forall i :: 0 <= i < |ts| ==> MaxEnd(end, ts) >= ts[i].endTime
    ensures MaxEnd(end, ts) == end || exists i :: 0 <= i < |ts| && ts[i].endTime == MaxEnd(end, ts)
  {
    if ts != [] {
      MaxEndIsMax(end, DropLast(ts));
      assert forall i :: 0 <= i < |ts| - 1 ==> ts[i] == DropLast(ts)[i];
    }
  }

  /** The day starts no later than any thread and ends no earlier than any
      thread; each bound is a sentinel or is attained by a thread. */
  lemma DayBounds(ts: seq<UserThread>, now: int)
    ensures var s := DailyStatsOf(ts, now);
      && s.userMessages == |ts|
      && (forall i :: 0 <= i < |ts| ==> s.startTime <= ts[i].startTime && ts[i].endTime <= s.endTime)
      && s.startTime <= now && s.endTime >= 0
      && (s.startTime == now || exists i :: 0 <= i < |ts| && ts[i].startTime == s.startTime)
      && (s.endTime == 0 || exists i :: 0 <= i < |ts| && ts[i].endTime == s.endTime)
  {
    MinStartIsMin(now, ts);
    MaxEndIsMax(0, ts);
  }

  /** All responses of the day, thread after thread. */
  function AllResponses(ts: seq<UserThread>): seq<LogEntry> {
    if ts == [] then [] else AllResponses(DropLast(ts)) + Last(ts).responses
  }

  lemma SumSnoc(s: seq<LogEntry>, x: LogEntry)
    ensures SumTokens(s + [x]) == AddTokens(SumTokens(s), EntryTokens(x))
    ensures SumTools(s + [x]) == SumTools(s) + ToolUseCount(x)
  {
    AppendOne(s, x);
  }

  lemma {:induction false} SumTokensConcat(a: seq<LogEntry>, b: seq<LogEntry>)
    ensures SumTokens(a + b) == AddTokens(SumTokens(a), SumTokens(b))
    ensures SumTools(a + b) == SumTools(a) + SumTools(b)
    decreases |b|
  {
    if b == [] {
      assert a + b == a;
    } else {
      var front, x := DropLast(b), Last(b);
      assert a + b == (a + front) + [x] by {
        assert b == front + [x];
        AppendAssoc(a, front, [x]);
      }
      SumTokensConcat(a, front);
      SumSnoc(a + front, x);
      SumSnoc(front, x);
      assert b == front + [x];
    }
  }

  /** A thread whose counters agree with its responses, as `buildThread` makes them. */
  predicate Consistent(t: UserThread) {
    t.totalTokens == SumTokens(t.responses) && t.tools == SumTools(t.responses)
    && t.cost == CalculateCost(t.totalTokens)
  }

  /** For threads whose counters agree with their responses, the day's
      exchanges, tools and tokens are those of all responses together, and
      the day's cost is the cost of its token totals. */
  lemma {:induction false} DayTotals(ts: seq<UserThread>, now: int)
    requires forall i :: 0 <= i < |ts| ==> Consistent(ts[i])
    ensures var s := DailyStatsOf(ts, now);
      && s.totalExchanges == |AllResponses(ts)|
      && s.toolsUsed == SumTools(AllResponses(ts))
      && s.totalTokens == SumTokens(AllResponses(ts))
      && s.totalCost == CalculateCost(s.totalTokens)
  {
    if ts != [] {
      var front, t := DropLast(ts), Last(ts);
      assert forall i :: 0 <= i < |front| ==> Consistent(front[i]) by {
        assert forall i :: 0 <= i < |front| ==> front[i] == ts[i];
      }
      assert Consistent(t) by {
        assert t == ts[|ts| - 1];
      }
      DayTotals(front, now);
      SumTokensConcat(AllResponses(front), t.responses);
      CostAdditive(SumThreadTokens(front), t.totalTokens);
    }
  }

  /** The statistics of the threads `buildUserThreads` returns. */
  lemma BuiltDayTotals(entries: seq<LogEntry>, now: int, threads: seq<UserThread>)
    requires |threads| == |Roots(entries)|
    requires forall i :: 0 <= i < |threads| ==> threads[i] == ThreadOf(Roots(entries)[i], entries)
    ensures var s := DailyStatsOf(threads, now);
      && s.userMessages == |Roots(entries)|
      && s.totalExchanges == |AllResponses(threads)|
      && s.toolsUsed == SumTools(AllResponses(threads))
      && s.totalTokens == SumTokens(AllResponses(threads))
      && s.totalCost == CalculateCost(s.totalTokens)
  {
    forall i | 0 <= i < |threads| ensures Consistent(threads[i]) {
      ThreadAggregates(Roots(entries)[i], entries);
    }
    DayTotals(threads, now);
  }
}
