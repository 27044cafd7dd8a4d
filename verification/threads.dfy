/** The thread builder: root selection and the parent-link walk of `buildThread`.

    The walk keeps a set of expanded ids and a current id. Expanding an id
    looks at all records whose parent is that id, in record order: every one
    that is an assistant record with `usage` is accumulated, and the current
    id is overwritten with each one's uuid, so the walk continues from the
    LAST child, whatever its type. The walk stops when the current id is
    empty or already expanded (a childless id leaves the current id on
    itself, which is then expanded). */
module ThreadBuilder {
  import opened LogTypes
  import opened Pricing

  // ---------------------------------------------------------------------------
  // Root selection

  /** A genuine user prompt: `type` user, role user and string content. */
  predicate IsRoot(e: LogEntry) {
    e.kind == User && e.message.role == UserRole && e.message.content.Plain?
  }

  /** The prompts of `entries`, in record order. */
  function Roots(entries: seq<LogEntry>): (rs: seq<LogEntry>)
    ensures |rs| <= |entries|
    ensures forall e :: e in rs ==> e in entries && IsRoot(e)
  {
    if entries == [] then []
    else Roots(DropLast(entries)) + (if IsRoot(Last(entries)) then [Last(entries)] else [])
  }

  /** A record is a root exactly when it is a user record with role user and
      string content; a tool-result echo never is. */
  lemma {:induction false} RootsMembers(entries: seq<LogEntry>, e: LogEntry)
    ensures e in Roots(entries) <==> e in entries && IsRoot(e)
    ensures e.message.content.Blocks? ==> e !in Roots(entries)
  {
    if entries != [] {
      RootsMembers(DropLast(entries), e);
      assert entries == DropLast(entries) + [Last(entries)];
    }
  }

  /** Roots keep record order: selecting from a concatenation concatenates the selections. */
  lemma {:induction false} RootsConcat(a: seq<LogEntry>, b: seq<LogEntry>)
    ensures Roots(a + b) == Roots(a) + Roots(b)
    decreases |b|
  {
    if b == [] {
      assert a + b == a;
    } else {
      assert a + b == (a + DropLast(b)) + [Last(b)];
      AppendOne(a + DropLast(b), Last(b));
      RootsConcat(a, DropLast(b));
    }
  }

  // ---------------------------------------------------------------------------
  // The walk

  /** `response.type === 'assistant' && 'usage' in response.message`. */
  predicate Accepted(e: LogEntry)
    ensures Accepted(e) ==> e.kind == Assistant && e.message.usage.Some? && EntryTokens(e) == UsageTokens(e.message.usage.value)
  {
    e.kind == Assistant && e.message.usage.Some?
  }

  /** `allEntries.filter(entry => entry.parentUuid === id)`. */
  function Children(entries: seq<LogEntry>, id: string): (cs: seq<LogEntry>)
    ensures |cs| <= |entries|
    ensures forall i :: 0 <= i < |cs| ==> cs[i].parentUuid == Some(id)
  {
    if entries == [] then []
    else Children(DropLast(entries), id) + (if Last(entries).parentUuid == Some(id) then [Last(entries)] else [])
  }

  /** The accepted records of `cs`, in order. */
  function AcceptedOf(cs: seq<LogEntry>): (rs: seq<LogEntry>)
    ensures |rs| <= |cs|
  {
    if cs == [] then []
    else AcceptedOf(DropLast(cs)) + (if Accepted(Last(cs)) then [Last(cs)] else [])
  }

  /** Some record has uuid `x`. */
  predicate HasUuid(entries: seq<LogEntry>, x: string) {
    entries != [] && (Last(entries).uuid == x || HasUuid(DropLast(entries), x))
  }

  function Elems(s: seq<string>): set<string> {
    set x | x in s
  }

  lemma {:induction false} LastChildHasUuid(entries: seq<LogEntry>, id: string)
    requires Children(entries, id) != []
    ensures HasUuid(entries, Last(Children(entries, id)).uuid)
  {
    if Last(entries).parentUuid != Some(id) {
      LastChildHasUuid(DropLast(entries), id);
    }
  }

  /** The current id after expanding `id`: the uuid of its last child, or
      `id` itself when it has none. */
  function NextId(entries: seq<LogEntry>, id: string): (n: string)
    ensures n == id || HasUuid(entries, n)
    ensures n == id <== Children(entries, id) == []
  {
    var cs := Children(entries, id);
    if cs == [] then id else LastChildHasUuid(entries, id); Last(cs).uuid
  }

  /** Number of records whose uuid has not been expanded: the walk's measure. */
  function Unexpanded(entries: seq<LogEntry>, visited: set<string>): nat {
    if entries == [] then 0
    else Unexpanded(DropLast(entries), visited) + (if Last(entries).uuid in visited then 0 else 1)
  }

  lemma {:induction false} UnexpandedShrinks(entries: seq<LogEntry>, visited: set<string>, x: string)
    ensures Unexpanded(entries, visited + {x}) <= Unexpanded(entries, visited)
    ensures x !in visited && HasUuid(entries, x) ==> Unexpanded(entries, visited + {x}) < Unexpanded(entries, visited)
  {
    if entries != [] {
      UnexpandedShrinks(DropLast(entries), visited, x);
    }
  }

  /** How far the current id is from stopping the walk, within one value of `Unexpanded`. */
  function Rank(entries: seq<LogEntry>, visited: set<string>, cur: string): nat {
    if cur == "" || cur in visited then 0 else if HasUuid(entries, cur) then 1 else 2
  }

  /** The ids expanded from `cur` on, given the ids already expanded. */
  function WalkFrom(entries: seq<LogEntry>, visited: set<string>, cur: string): (ids: seq<string>)
    ensures ids == [] <==> cur == "" || cur in visited
    ensures ids != [] ==> ids[0] == cur
    decreases Unexpanded(entries, visited), Rank(entries, visited, cur)
  {
    if cur == "" || cur in visited then []
    else
      UnexpandedShrinks(entries, visited, cur);
      [cur] + WalkFrom(entries, visited + {cur}, NextId(entries, cur))
  }

  /** The ids `buildThread` expands for `root`, in order. */
  function Walk(entries: seq<LogEntry>, root: LogEntry): (ids: seq<string>)
    ensures ids == [] <==> root.uuid == ""
    ensures ids != [] ==> ids[0] == root.uuid
  {
    WalkFrom(entries, {}, root.uuid)
  }

  /** The responses accumulated while expanding `ids` in order. */
  function Gather(entries: seq<LogEntry>, ids: seq<string>): (rs: seq<LogEntry>)
    ensures forall i :: 0 <= i < |rs| ==> Accepted(rs[i])
    ensures ids == [] ==> rs == []
  {
    if ids == [] then []
    else
      AcceptedOfAccepted(Children(entries, Last(ids)));
      Gather(entries, DropLast(ids)) + AcceptedOf(Children(entries, Last(ids)))
  }

  lemma {:induction false} AcceptedOfAccepted(cs: seq<LogEntry>)
    ensures forall i :: 0 <= i < |AcceptedOf(cs)| ==> Accepted(AcceptedOf(cs)[i])
  {
    if cs != [] {
      AcceptedOfAccepted(DropLast(cs));
    }
  }

  /** The thread `buildThread` returns for `root`. */
  function ThreadOf(root: LogEntry, entries: seq<LogEntry>): (t: UserThread)
    ensures t.user == root && t.startTime == root.time <= t.endTime
    ensures t.cost == SumEntryCosts(t.responses)
    ensures root.uuid == "" ==> t.responses == [] && t.cost == 0
  {
    var rs := Gather(entries, Walk(entries, root));
    MaxTimeIsMax(root.time, rs);
    CostOfSumIsSumOfCosts(rs);
    UserThread(root, rs, SumTools(rs), SumTokens(rs), CalculateCost(SumTokens(rs)), root.time, MaxTime(root.time, rs))
  }

  // ---------------------------------------------------------------------------
  // The imperative code

  /** The thread record while responses are being accumulated: every counter
      agrees with the responses collected so far. */
  predicate Partial(t: UserThread, root: LogEntry) {
    && t.user == root && t.startTime == root.time && t.cost == 0
    && t.totalTokens == SumTokens(t.responses)
    && t.tools == SumTools(t.responses)
    && t.endTime == MaxTime(root.time, t.responses)
  }

  lemma AccumulateStep(rs: seq<LogEntry>, r: LogEntry, start: int)
    ensures SumTokens(rs + [r]) == AddTokens(SumTokens(rs), EntryTokens(r))
    ensures SumTools(rs + [r]) == SumTools(rs) + ToolUseCount(r)
    ensures MaxTime(start, rs + [r]) == if r.time > MaxTime(start, rs) then r.time else MaxTime(start, rs)
  {
    AppendOne(rs, r);
  }

  /** The body of the accumulation branch: appends an accepted response and
      adds its counters, its `tool_use` blocks and its time to the record. */
  method AccumulateResponse(thread: UserThread, response: LogEntry) returns (next: UserThread)
    requires Accepted(response)
    ensures next == thread.(
      responses := thread.responses + [response],
      totalTokens := AddTokens(thread.totalTokens, EntryTokens(response)),
      tools := thread.tools + ToolUseCount(response),
      endTime := if response.time > thread.endTime then response.time else thread.endTime)
  {
    next := thread.(responses := thread.responses + [response]);

    var usage := response.message.usage.value;
    next := next.(totalTokens := TokenTotals(
      next.totalTokens.input + OrZero(usage.inputTokens),
      next.totalTokens.output + OrZero(usage.outputTokens),
      next.totalTokens.cacheCreation + OrZero(usage.cacheCreationInputTokens),
      next.totalTokens.cacheRead + OrZero(usage.cacheReadInputTokens)));

    if response.message.content.Blocks? {
      next := next.(tools := next.tools + CountToolUse(response.message.content.items));
    }

    if response.time > next.endTime {
      next := next.(endTime := response.time);
    }
  }

  /** Accumulating one more accepted response keeps every counter in step. */
  lemma AccumulateKeepsPartial(t: UserThread, r: LogEntry, root: LogEntry)
    requires Partial(t, root) && Accepted(r)
    ensures Partial(t.(
      responses := t.responses + [r],
      totalTokens := AddTokens(t.totalTokens, EntryTokens(r)),
      tools := t.tools + ToolUseCount(r),
      endTime := if r.time > t.endTime then r.time else t.endTime), root)
  {
    var next := t.(
      responses := t.responses + [r],
      totalTokens := AddTokens(t.totalTokens, EntryTokens(r)),
      tools := t.tools + ToolUseCount(r),
      endTime := if r.time > t.endTime then r.time else t.endTime);
    AccumulateStep(t.responses, r, root.time);
    assert next.totalTokens == SumTokens(next.responses);
    assert next.tools == SumTools(next.responses);
    assert next.endTime == MaxTime(root.time, next.responses);
  }

  /** One expansion of `buildThread`'s walk: scans the children of `id` in
      record order, accumulating the accepted ones, and leaves the current id
      on the last child's uuid (on `id` when there is none). */
  method ExpandChildren(thread: UserThread, root: LogEntry, allEntries: seq<LogEntry>, id: string)
    returns (next: UserThread, currentUuid: string)
    requires Partial(thread, root)
    ensures Partial(next, root)
    ensures next.responses == thread.responses + AcceptedOf(Children(allEntries, id))
    ensures currentUuid == NextId(allEntries, id)
  {
    next, currentUuid := thread, id;
    var responses := Children(allEntries, id);
    ghost var acc: seq<LogEntry> := [];
    assert responses[..0] == [];
    for j := 0 to |responses|
      invariant acc == AcceptedOf(responses[..j])
      invariant Partial(next, root) && next.responses == thread.responses + acc
      invariant currentUuid == if j == 0 then id else responses[j - 1].uuid
    {
      var response := responses[j];
      AcceptedOfStep(responses, j);
      if response.kind == Assistant && response.message.usage.Some? {
        AccumulateKeepsPartial(next, response, root);
        next := AccumulateResponse(next, response);
        AppendAssoc(thread.responses, acc, [response]);
        acc := acc + [response];
      }
      currentUuid := response.uuid;
    }
    assert responses[..|responses|] == responses;
  }

  /** `buildThread`: walks the parent links from `userMsg`, filling the thread
      record field by field. */
  method BuildThread(userMsg: LogEntry, allEntries: seq<LogEntry>) returns (thread: UserThread)
    ensures thread == ThreadOf(userMsg, allEntries)
  {
    thread := UserThread(userMsg, [], 0, ZeroTokens, 0, userMsg.time, userMsg.time);
    var visited: set<string> := {};
    var currentUuid := userMsg.uuid;
    ghost var done: seq<string> := [];
    ghost var remaining := Walk(allEntries, userMsg);

    while currentUuid != "" && currentUuid !in visited
      invariant remaining == WalkFrom(allEntries, visited, currentUuid)
      invariant done + remaining == Walk(allEntries, userMsg)
      invariant Partial(thread, userMsg) && thread.responses == Gather(allEntries, done)
      decreases |remaining|
    {
      ghost var expanded, visitedBefore := currentUuid, visited;
      visited := visited + {currentUuid};
      thread, currentUuid := ExpandChildren(thread, userMsg, allEntries, currentUuid);
      WalkStep(allEntries, visitedBefore, expanded);
      GatherStep(allEntries, done, expanded);
      assert remaining == [expanded] + remaining[1..];
      AppendAssoc(done, [expanded], remaining[1..]);
      done, remaining := done + [expanded], remaining[1..];
    }

    assert done + [] == done;
    thread := thread.(cost := CalculateCost(thread.totalTokens));
  }

  /** One expansion of the walk. */
  lemma WalkStep(entries: seq<LogEntry>, visited: set<string>, cur: string)
    requires cur != "" && cur !in visited
    ensures WalkFrom(entries, visited, cur) == [cur] + WalkFrom(entries, visited + {cur}, NextId(entries, cur))
  {
  }

  lemma GatherStep(entries: seq<LogEntry>, ids: seq<string>, x: string)
    ensures Gather(entries, ids + [x]) == Gather(entries, ids) + AcceptedOf(Children(entries, x))
  {
    AppendOne(ids, x);
  }

  lemma AcceptedOfStep(cs: seq<LogEntry>, j: nat)
    requires j < |cs|
    ensures AcceptedOf(cs[..j + 1]) == AcceptedOf(cs[..j]) + (if Accepted(cs[j]) then [cs[j]] else [])
  {
    AppendOne(cs[..j], cs[j]);
    assert cs[..j + 1] == cs[..j] + [cs[j]];
  }

  /** `buildUserThreads`: one thread per root, in record order. */
  method BuildUserThreads(entries: seq<LogEntry>) returns (threads: seq<UserThread>)
    ensures |threads| == |Roots(entries)|
    ensures forall i :: 0 <= i < |threads| ==> threads[i] == ThreadOf(Roots(entries)[i], entries)
  {
    var userMessages := Roots(entries);
    threads := [];
    for i := 0 to |userMessages|
      invariant |threads| == i
      invariant forall k :: 0 <= k < i ==> threads[k] == ThreadOf(userMessages[k], entries)
    {
      var thread := BuildThread(userMessages[i], entries);
      threads := threads + [thread];
    }
  }

  // ---------------------------------------------------------------------------
  // Termination and the shape of the walk

  /** Every expanded id is non-empty and not expanded before, and none repeats. */
  lemma {:induction false} WalkFromFresh(entries: seq<LogEntry>, visited: set<string>, cur: string)
    ensures var ids := WalkFrom(entries, visited, cur);
      && (forall i :: 0 <= i < |ids| ==> ids[i] != "" && ids[i] !in visited)
      && (forall i, j :: 0 <= i < j < |ids| ==> ids[i] != ids[j])
    decreases Unexpanded(entries, visited), Rank(entries, visited, cur)
  {
    if cur != "" && cur !in visited {
      UnexpandedShrinks(entries, visited, cur);
      var next := NextId(entries, cur);
      WalkFromFresh(entries, visited + {cur}, next);
      var rest := WalkFrom(entries, visited + {cur}, next);
      var ids := WalkFrom(entries, visited, cur);
      assert ids == [cur] + rest;
      forall i | 0 < i < |ids|
        ensures ids[i] == rest[i - 1] && ids[i] != "" && ids[i] !in visited && ids[i] != cur
      {
        assert WalkFrom(entries, visited + {cur}, next)[i - 1] !in visited + {cur};
      }
      forall i, j | 0 <= i < j < |ids| ensures ids[i] != ids[j] {
        if i > 0 {
          assert WalkFrom(entries, visited + {cur}, next)[i - 1] != WalkFrom(entries, visited + {cur}, next)[j - 1];
        }
      }
    }
  }

  /** The walk starts at `cur`, steps by `NextId`, visits only ids of records
      after the first, and stops where the next id is empty or expanded. */
  lemma {:induction false} WalkFromShape(entries: seq<LogEntry>, visited: set<string>, cur: string)
    ensures var ids := WalkFrom(entries, visited, cur);
      && (ids == [] <==> cur == "" || cur in visited)
      && (ids != [] ==> ids[0] == cur)
      && (forall i :: 0 < i < |ids| ==> HasUuid(entries, ids[i]))
      && (forall i :: 0 <= i < |ids| - 1 ==> ids[i + 1] == NextId(entries, ids[i]))
      && (ids != [] ==> var n := NextId(entries, Last(ids)); n == "" || n in visited || n in ids)
    decreases Unexpanded(entries, visited), Rank(entries, visited, cur)
  {
    if cur != "" && cur !in visited {
      UnexpandedShrinks(entries, visited, cur);
      var next := NextId(entries, cur);
      WalkFromShape(entries, visited + {cur}, next);
      var rest := WalkFrom(entries, visited + {cur}, next);
      var ids := WalkFrom(entries, visited, cur);
      assert ids == [cur] + rest;
      assert forall i :: 0 < i < |ids| ==> ids[i] == rest[i - 1];
      if rest != [] {
        assert Last(ids) == Last(rest);
      }
    }
  }

  /** The uuids among the root and the records. */
  function Universe(entries: seq<LogEntry>, rootId: string): set<string> {
    (set e | e in entries :: e.uuid) + {rootId}
  }

  lemma {:induction false} HasUuidInUniverse(entries: seq<LogEntry>, rootId: string, x: string)
    requires HasUuid(entries, x)
    ensures x in Universe(entries, rootId)
  {
    if Last(entries).uuid != x {
      HasUuidInUniverse(DropLast(entries), rootId, x);
      assert x in Universe(DropLast(entries), rootId) - {rootId} || x == rootId;
    } else {
      assert Last(entries) in entries;
    }
  }

  lemma {:induction false} DistinctBounded(ids: seq<string>, u: set<string>)
    requires forall i :: 0 <= i < |ids| ==> ids[i] in u
    requires forall i, j :: 0 <= i < j < |ids| ==> ids[i] != ids[j]
    ensures |ids| <= |u|
  {
    if ids != [] {
      var x := Last(ids);
      DistinctBounded(DropLast(ids), u - {x});
    }
  }

  /** Termination: every id is expanded at most once, each is the root's uuid
      or a record's, so there are at most as many expansions as distinct ids
      among the root and the records; the empty id is never expanded. */
  lemma WalkExpandsEachIdOnce(entries: seq<LogEntry>, root: LogEntry)
    ensures var ids := Walk(entries, root);
      && (forall i, j :: 0 <= i < j < |ids| ==> ids[i] != ids[j])
      && (forall i :: 0 <= i < |ids| ==> ids[i] != "" && ids[i] in Universe(entries, root.uuid))
      && |ids| <= |Universe(entries, root.uuid)|
  {
    WalkFromFresh(entries, {}, root.uuid);
    WalkFromShape(entries, {}, root.uuid);
    var ids := Walk(entries, root);
    forall i | 0 <= i < |ids| ensures ids[i] in Universe(entries, root.uuid) {
      if i > 0 {
        HasUuidInUniverse(entries, root.uuid, ids[i]);
      }
    }
    DistinctBounded(ids, Universe(entries, root.uuid));
  }

  /** The walk described step by step: it starts at the root's uuid (no step
      at all when that is empty); each expanded id is followed by the uuid of
      its last child; no id repeats; and it stops where the next id is empty
      or already expanded. */
  predicate IsWalk(entries: seq<LogEntry>, root: LogEntry, ids: seq<string>) {
    && (ids == [] <==> root.uuid == "")
    && (ids != [] ==> ids[0] == root.uuid)
    && (forall i :: 0 <= i < |ids| ==> ids[i] != "")
    && (forall i, j :: 0 <= i < j < |ids| ==> ids[i] != ids[j])
    && (forall i :: 0 <= i < |ids| - 1 ==> ids[i + 1] == NextId(entries, ids[i]))
    && (ids != [] ==> var n := NextId(entries, Last(ids)); n == "" || n in ids)
  }

  lemma WalkIsWalk(entries: seq<LogEntry>, root: LogEntry)
    ensures IsWalk(entries, root, Walk(entries, root))
  {
    WalkFromFresh(entries, {}, root.uuid);
    WalkFromShape(entries, {}, root.uuid);
  }

  lemma {:induction false} WalkSuffix(entries: seq<LogEntry>, root: LogEntry, ids: seq<string>, k: nat)
    requires IsWalk(entries, root, ids) && k < |ids|
    ensures WalkFrom(entries, Elems(ids[..k]), ids[k]) == ids[k..]
    decreases |ids| - k
  {
    assert ids[k] !in Elems(ids[..k]);
    assert Elems(ids[..k]) + {ids[k]} == Elems(ids[..k + 1]);
    if k + 1 < |ids| {
      WalkSuffix(entries, root, ids, k + 1);
      assert ids[k..] == [ids[k]] + ids[k + 1..];
    } else {
      assert ids[..k + 1] == ids;
    }
  }

  /** The step-by-step description has exactly one solution: the walk. */
  lemma WalkUnique(entries: seq<LogEntry>, root: LogEntry, ids: seq<string>)
    requires IsWalk(entries, root, ids)
    ensures ids == Walk(entries, root)
  {
    if ids != [] {
      WalkSuffix(entries, root, ids, 0);
      assert Elems(ids[..0]) == {};
      assert ids[0..] == ids;
    }
  }

  // ---------------------------------------------------------------------------
  // What is accumulated

  lemma {:induction false} AcceptedOfConcat(a: seq<LogEntry>, b: seq<LogEntry>)
    ensures AcceptedOf(a + b) == AcceptedOf(a) + AcceptedOf(b)
    decreases |b|
  {
    if b == [] {
      assert a + b == a;
    } else {
      assert a + b == (a + DropLast(b)) + [Last(b)];
      AppendOne(a + DropLast(b), Last(b));
      AcceptedOfConcat(a, DropLast(b));
    }
  }

  lemma {:induction false} AcceptedChildrenMembers(entries: seq<LogEntry>, id: string, e: LogEntry)
    ensures e in AcceptedOf(Children(entries, id)) <==> e in entries && Accepted(e) && e.parentUuid == Some(id)
  {
    if entries != [] {
      var front, last := DropLast(entries), Last(entries);
      var tail := if Accepted(last) && last.parentUuid == Some(id) then [last] else [];
      assert AcceptedOf(Children(entries, id)) == AcceptedOf(Children(front, id)) + tail by {
        AcceptedChildrenStep(entries, id);
      }
      assert e in AcceptedOf(Children(front, id)) <==> e in front && Accepted(e) && e.parentUuid == Some(id) by {
        AcceptedChildrenMembers(front, id, e);
      }
      assert e in entries <==> e in front || e == last by {
        assert entries == front + [last];
      }
    }
  }

  /** A record is accumulated exactly when it is an assistant record with
      `usage` whose parent is one of the expanded ids. */
  lemma {:induction false} GatherMembers(entries: seq<LogEntry>, ids: seq<string>, e: LogEntry)
    ensures e in Gather(entries, ids)
        <==> e in entries && Accepted(e) && e.parentUuid.Some? && e.parentUuid.value in ids
  {
    if ids != [] {
      GatherMembers(entries, DropLast(ids), e);
      AcceptedChildrenMembers(entries, Last(ids), e);
      assert ids == DropLast(ids) + [Last(ids)];
    }
  }

  /** The accepted records of `entries` whose parent is in `parents`, in order. */
  function SelectIn(entries: seq<LogEntry>, parents: set<string>): seq<LogEntry> {
    if entries == [] then []
    else
      var e := Last(entries);
      SelectIn(DropLast(entries), parents)
      + (if Accepted(e) && e.parentUuid.Some? && e.parentUuid.value in parents then [e] else [])
  }

  lemma {:induction false} SelectInAddParent(entries: seq<LogEntry>, parents: set<string>, x: string)
    requires x !in parents
    ensures multiset(SelectIn(entries, parents + {x}))
         == multiset(SelectIn(entries, parents)) + multiset(AcceptedOf(Children(entries, x)))
  {
    if entries != [] {
      var front, e := DropLast(entries), Last(entries);
      var a, b := SelectIn(front, parents), AcceptedOf(Children(front, x));
      var added := if Accepted(e) && e.parentUuid.Some? && e.parentUuid.value in parents then [e] else [];
      var fromX := if Accepted(e) && e.parentUuid == Some(x) then [e] else [];
      calc {
        multiset(SelectIn(entries, parents + {x}));
        { SelectInAddParentStep(entries, parents, x); }
        multiset(SelectIn(front, parents + {x}) + (added + fromX));
        multiset(SelectIn(front, parents + {x})) + multiset(added + fromX);
        { SelectInAddParent(front, parents, x); }
        multiset(a) + multiset(b) + multiset(added + fromX);
        { MultisetShuffle(a, b, added, fromX); }
        multiset(a + added) + multiset(b + fromX);
        { AcceptedChildrenStep(entries, x); }
        multiset(SelectIn(entries, parents)) + multiset(AcceptedOf(Children(entries, x)));
      }
    }
  }

  lemma SelectInAddParentStep(entries: seq<LogEntry>, parents: set<string>, x: string)
    requires entries != [] && x !in parents
    ensures var e := Last(entries);
      SelectIn(entries, parents + {x}) == SelectIn(DropLast(entries), parents + {x})
        + ((if Accepted(e) && e.parentUuid.Some? && e.parentUuid.value in parents then [e] else [])
           + (if Accepted(e) && e.parentUuid == Some(x) then [e] else []))
  {
    var e := Last(entries);
    if e.parentUuid == Some(x) {
      assert e.parentUuid.value !in parents;
    } else {
      var added := if Accepted(e) && e.parentUuid.Some? && e.parentUuid.value in parents then [e] else [];
      assert added + [] == added;
    }
  }

  lemma AcceptedChildrenStep(entries: seq<LogEntry>, x: string)
    requires entries != []
    ensures var e := Last(entries);
      AcceptedOf(Children(entries, x))
        == AcceptedOf(Children(DropLast(entries), x)) + (if Accepted(e) && e.parentUuid == Some(x) then [e] else [])
  {
    var front, e := DropLast(entries), Last(entries);
    if e.parentUuid == Some(x) {
      AppendOne(Children(front, x), e);
    } else {
      assert Children(entries, x) == Children(front, x) + [];
      assert Children(front, x) + [] == Children(front, x);
    }
  }

  lemma MultisetShuffle<T>(a: seq<T>, b: seq<T>, c: seq<T>, d: seq<T>)
    ensures multiset(a) + multiset(b) + multiset(c + d) == multiset(a + c) + multiset(b + d)
  {
  }

  lemma {:induction false} SelectInSubMultiset(entries: seq<LogEntry>, parents: set<string>)
    ensures multiset(SelectIn(entries, parents)) <= multiset(entries)
  {
    if entries != [] {
      var front, e := DropLast(entries), Last(entries);
      var tail := if Accepted(e) && e.parentUuid.Some? && e.parentUuid.value in parents then [e] else [];
      calc {
        multiset(SelectIn(entries, parents));
        { assert SelectIn(entries, parents) == SelectIn(front, parents) + tail; }
        multiset(SelectIn(front, parents)) + multiset(tail);
      <= { SelectInSubMultiset(front, parents); }
        multiset(front) + multiset(tail);
      <=
        multiset(front) + multiset([e]);
      == { assert entries == front + [e]; }
        multiset(entries);
      }
    }
  }

  lemma {:induction false} GatherMultiset(entries: seq<LogEntry>, ids: seq<string>)
    requires forall i, j :: 0 <= i < j < |ids| ==> ids[i] != ids[j]
    ensures multiset(Gather(entries, ids)) == multiset(SelectIn(entries, Elems(ids)))
  {
    if ids == [] {
      assert Elems(ids) == {};
      SelectInEmpty(entries);
    } else {
      GatherMultiset(entries, DropLast(ids));
      assert Last(ids) !in Elems(DropLast(ids));
      assert Elems(ids) == Elems(DropLast(ids)) + {Last(ids)};
      SelectInAddParent(entries, Elems(DropLast(ids)), Last(ids));
    }
  }

  lemma {:induction false} SelectInEmpty(entries: seq<LogEntry>)
    ensures SelectIn(entries, {}) == []
  {
    if entries != [] {
      SelectInEmpty(DropLast(entries));
    }
  }

  /** The accumulation rule for a whole thread: every response is an
      assistant record with `usage` whose parent was expanded, every such
      record is a response, and each occurs among the responses exactly as
      often as among the records, so no record is accumulated twice. */
  lemma ThreadResponses(root: LogEntry, entries: seq<LogEntry>)
    ensures var t := ThreadOf(root, entries);
      && (forall e :: e in t.responses <==>
            e in entries && Accepted(e) && e.parentUuid.Some? && e.parentUuid.value in Walk(entries, root))
      && multiset(t.responses) == multiset(SelectIn(entries, Elems(Walk(entries, root))))
      && multiset(t.responses) <= multiset(entries)
  {
    var ids := Walk(entries, root);
    forall e ensures e in Gather(entries, ids) <==>
        e in entries && Accepted(e) && e.parentUuid.Some? && e.parentUuid.value in ids {
      GatherMembers(entries, ids, e);
    }
    WalkExpandsEachIdOnce(entries, root);
    GatherMultiset(entries, ids);
    SelectInSubMultiset(entries, Elems(ids));
  }

  // ---------------------------------------------------------------------------
  // Aggregates

  /** The end time is the latest of the start and the response times, and is one of them. */
  lemma {:induction false} MaxTimeIsMax(start: int, rs: seq<LogEntry>)
    ensures MaxTime(start, rs) >= start
    ensures forall i :: 0 <= i < |rs| ==> rs[i].time <= MaxTime(start, rs)
    ensures MaxTime(start, rs) == start || exists i :: 0 <= i < |rs| && rs[i].time == MaxTime(start, rs)
  {
    if rs != [] {
      MaxTimeIsMax(start, DropLast(rs));
      assert forall i :: 0 <= i < |rs| - 1 ==> rs[i] == DropLast(rs)[i];
    }
  }

  /** The thread's counters: start and end times, and the cost of its totals
      as the sum of its responses' costs; an empty thread is all zeros. */
  lemma ThreadAggregates(root: LogEntry, entries: seq<LogEntry>)
    ensures var t := ThreadOf(root, entries);
      && t.user == root && t.startTime == root.time
      && t.startTime <= t.endTime
      && (forall i :: 0 <= i < |t.responses| ==> t.responses[i].time <= t.endTime)
      && (t.endTime == t.startTime || exists i :: 0 <= i < |t.responses| && t.responses[i].time == t.endTime)
      && t.cost == CalculateCost(t.totalTokens) == SumEntryCosts(t.responses)
      && (t.responses == [] ==> t.tools == 0 && t.totalTokens == ZeroTokens && t.cost == 0 && t.endTime == t.startTime)
  {
    var t := ThreadOf(root, entries);
    MaxTimeIsMax(root.time, t.responses);
    CostOfSumIsSumOfCosts(t.responses);
  }

  // ---------------------------------------------------------------------------
  // Two small logs

  /** A cycle: record "a" (a prompt) names "b" as its parent and assistant
      record "b" names "a". The walk expands "a", then "b", and stops because
      "a" is already expanded; "b" is the one response. */
  lemma CycleExample(a: LogEntry, b: LogEntry)
    requires a.uuid == "a" && a.parentUuid == Some("b") && a.kind == User
    requires b.uuid == "b" && b.parentUuid == Some("a") && Accepted(b)
    ensures Walk([a, b], a) == ["a", "b"] && ThreadOf(a, [a, b]).responses == [b]
  {
    CycleChildren(a, b);
    assert IsWalk([a, b], a, ["a", "b"]);
    WalkUnique([a, b], a, ["a", "b"]);
    assert Gather([a, b], ["a", "b"]) == [b] by {
      assert ["a", "b"] == ["a"] + ["b"] && ["a"] == [] + ["a"];
      GatherStep([a, b], [], "a");
      GatherStep([a, b], ["a"], "b");
      AcceptedOfSnoc([], b);
      AcceptedOfSnoc([], a);
    }
  }

  lemma CycleChildren(a: LogEntry, b: LogEntry)
    requires a.parentUuid == Some("b") && b.parentUuid == Some("a")
    ensures Children([a, b], "a") == [b] && Children([a, b], "b") == [a]
  {
    assert "a" != "b" by { assert "a"[0] != "b"[0]; }
    assert [a, b] == [a] + [b] && [a] == [] + [a];
    assert Children([a, b], "a") == [b] by {
      ChildrenSnoc([], a, "a");
      ChildrenSnoc([a], b, "a");
    }
    assert Children([a, b], "b") == [a] by {
      ChildrenSnoc([], a, "b");
      assert Children([a], "b") == [a];
      ChildrenSnoc([a], b, "b");
      assert [a] + [] == [a];
    }
  }

  /** A prompt "r" with two children, an assistant reply "x" followed by a
      user record "y", where "x" has an assistant reply "z" of its own: the
      walk moves on to "y", the last child, and stops there, so "z" is never
      reached. */
  lemma LastChildExample(r: LogEntry, x: LogEntry, y: LogEntry, z: LogEntry)
    requires r.uuid == "r" && r.parentUuid == None
    requires x.uuid == "x" && x.parentUuid == Some("r") && Accepted(x)
    requires y.uuid == "y" && y.parentUuid == Some("r") && y.kind == User
    requires z.uuid == "z" && z.parentUuid == Some("x") && Accepted(z)
    ensures Walk([r, x, y, z], r) == ["r", "y"] && ThreadOf(r, [r, x, y, z]).responses == [x]
  {
    var es := [r, x, y, z];
    assert NextId(es, "r") == "y" && NextId(es, "y") == "y" by {
      LastChildChildren(r, x, y, z);
    }
    assert Walk(es, r) == ["r", "y"] by {
      assert IsWalk(es, r, ["r", "y"]);
      WalkUnique(es, r, ["r", "y"]);
    }
    assert Gather(es, ["r", "y"]) == [x] by {
      LastChildChildren(r, x, y, z);
      assert ["r", "y"] == ["r"] + ["y"] && ["r"] == [] + ["r"];
      GatherStep(es, [], "r");
      GatherStep(es, ["r"], "y");
      assert [x, y] == [x] + [y] && [x] == [] + [x];
      AcceptedOfSnoc([], x);
      AcceptedOfSnoc([x], y);
    }
  }

  lemma LastChildChildren(r: LogEntry, x: LogEntry, y: LogEntry, z: LogEntry)
    requires r.parentUuid == None && x.parentUuid == Some("r") && y.parentUuid == Some("r")
    requires z.parentUuid == Some("x")
    ensures Children([r, x, y, z], "r") == [x, y] && Children([r, x, y, z], "y") == []
  {
    assert "x" != "y" by { assert "x"[0] != "y"[0]; }
    assert "x" != "r" by { assert "x"[0] != "r"[0]; }
    assert "r" != "y" by { assert "r"[0] != "y"[0]; }
    var es := [r, x, y, z];
    assert es == [r, x, y] + [z] && [r, x, y] == [r, x] + [y] && [r, x] == [r] + [x] && [r] == [] + [r];
    assert Children(es, "r") == [x, y] by {
      ChildrenSnoc([], r, "r");
      ChildrenSnoc([r], x, "r");
      ChildrenSnoc([r, x], y, "r");
      ChildrenSnoc([r, x, y], z, "r");
    }
    assert Children(es, "y") == [] by {
      ChildrenSnoc([], r, "y");
      ChildrenSnoc([r], x, "y");
      ChildrenSnoc([r, x], y, "y");
      ChildrenSnoc([r, x, y], z, "y");
    }
  }

  lemma ChildrenSnoc(s: seq<LogEntry>, e: LogEntry, id: string)
    ensures Children(s + [e], id) == Children(s, id) + (if e.parentUuid == Some(id) then [e] else [])
  {
    AppendOne(s, e);
  }

  lemma AcceptedOfSnoc(s: seq<LogEntry>, e: LogEntry)
    ensures AcceptedOf(s + [e]) == AcceptedOf(s) + (if Accepted(e) then [e] else [])
  {
    AppendOne(s, e);
  }
}
