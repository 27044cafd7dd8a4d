/** The record store: the date filter applied to each log file, the merge of
    all files of all projects, and the sort by time. */
module RecordStore {
  import opened LogTypes

  /** One line of a log file, after JSON parsing: a record or a line that did not parse. */
  datatype Line = Parsed(entry: LogEntry) | Malformed

  /** A log file: its lines, or a file that could not be read. */
  datatype LogFile = Readable(lines: seq<Line>) | Unreadable

  /** `entry.timestamp && entry.timestamp.startsWith(targetDate)`. */
  predicate OnDate(e: LogEntry, targetDate: string)
    ensures OnDate(e, targetDate) <==>
      |e.timestamp| > 0 && |targetDate| <= |e.timestamp| && e.timestamp[..|targetDate|] == targetDate
  {
    |e.timestamp| > 0 && targetDate <= e.timestamp
  }

  /** The records of `lines` that are kept, in file order. */
  function FilterDate(lines: seq<Line>, targetDate: string): (es: seq<LogEntry>)
    ensures |es| <= |lines|
    ensures forall i :: 0 <= i < |es| ==> OnDate(es[i], targetDate)
  {
    if lines == [] then []
    else
      FilterDate(DropLast(lines), targetDate)
      + (if Last(lines).Parsed? && OnDate(Last(lines).entry, targetDate) then [Last(lines).entry] else [])
  }

  function FileEntries(file: LogFile, targetDate: string): (es: seq<LogEntry>)
    ensures file.Unreadable? ==> es == []
    ensures forall i :: 0 <= i < |es| ==> OnDate(es[i], targetDate)
  {
    if file.Readable? then FilterDate(file.lines, targetDate) else []
  }

  /** `parseLogFile`: a line that does not parse is skipped and the loop goes
      on; an unreadable file yields no records. */
  method ParseLogFile(file: LogFile, targetDate: string) returns (entries: seq<LogEntry>)
    ensures entries == FileEntries(file, targetDate)
  {
    entries := [];
    if file.Unreadable? {
      return;
    }
    var lines := file.lines;
    for i := 0 to |lines|
      invariant entries == FilterDate(lines[..i], targetDate)
    {
      AppendOne(lines[..i], lines[i]);
      assert lines[..i + 1] == lines[..i] + [lines[i]];
      match lines[i]
      case Malformed =>
      case Parsed(entry) =>
        if |entry.timestamp| > 0 && targetDate <= entry.timestamp {
          entries := entries + [entry];
        }
    }
    assert lines[..|lines|] == lines;
  }

  lemma {:induction false} FilterDateConcat(a: seq<Line>, b: seq<Line>, targetDate: string)
    ensures FilterDate(a + b, targetDate) == FilterDate(a, targetDate) + FilterDate(b, targetDate)
    decreases |b|
  {
    if b == [] {
      assert a + b == a;
    } else {
      assert a + b == (a + DropLast(b)) + [Last(b)];
      AppendOne(a + DropLast(b), Last(b));
      FilterDateConcat(a, DropLast(b), targetDate);
    }
  }

  /** A record is kept exactly when it is a parsed line of the file and lies on the target date. */
  lemma {:induction false} FilterDateMembers(lines: seq<Line>, targetDate: string, e: LogEntry)
    ensures e in FilterDate(lines, targetDate) <==> Parsed(e) in lines && OnDate(e, targetDate)
  {
    if lines != [] {
      FilterDateMembers(DropLast(lines), targetDate, e);
      assert lines == DropLast(lines) + [Last(lines)];
    }
  }

  /** A malformed line neither stops the file nor contributes a record. */
  lemma MalformedLineSkipped(before: seq<Line>, after: seq<Line>, targetDate: string)
    ensures FilterDate(before + [Malformed] + after, targetDate)
         == FilterDate(before, targetDate) + FilterDate(after, targetDate)
  {
    FilterDateConcat(before + [Malformed], after, targetDate);
    AppendOne(before, Malformed);
  }

  /** The number of parsed lines of the file that lie on the target date. */
  function CountOnDate(lines: seq<Line>, targetDate: string): nat {
    if lines == [] then 0
    else CountOnDate(DropLast(lines), targetDate)
         + (if Last(lines).Parsed? && OnDate(Last(lines).entry, targetDate) then 1 else 0)
  }

  /** One record is kept per parsed line on the target date, however many
      lines are malformed. */
  lemma {:induction false} FilterDateCount(lines: seq<Line>, targetDate: string)
    ensures |FilterDate(lines, targetDate)| == CountOnDate(lines, targetDate)
  {
    if lines != [] {
      FilterDateCount(DropLast(lines), targetDate);
    }
  }

  /** All records of the files of one project, file by file. */
  function ProjectEntries(files: seq<LogFile>, targetDate: string): (es: seq<LogEntry>)
    ensures forall i :: 0 <= i < |es| ==> OnDate(es[i], targetDate)
  {
    if files == [] then [] else ProjectEntries(DropLast(files), targetDate) + FileEntries(Last(files), targetDate)
  }

  /** All records of all projects, project by project. */
  function MergedEntries(projects: seq<seq<LogFile>>, targetDate: string): (es: seq<LogEntry>)
    ensures forall i :: 0 <= i < |es| ==> OnDate(es[i], targetDate)
  {
    if projects == [] then []
    else MergedEntries(DropLast(projects), targetDate) + ProjectEntries(Last(projects), targetDate)
  }

  /** Every merged record lies on the target date and comes from a parsed line of some file. */
  lemma {:induction false} MergedEntriesOnDate(projects: seq<seq<LogFile>>, targetDate: string, e: LogEntry)
    requires e in MergedEntries(projects, targetDate)
    ensures OnDate(e, targetDate)
    ensures exists p, f :: 0 <= p < |projects| && 0 <= f < |projects[p]|
                           && projects[p][f].Readable? && Parsed(e) in projects[p][f].lines
  {
    var rest := MergedEntries(DropLast(projects), targetDate);
    if e in rest {
      MergedEntriesOnDate(DropLast(projects), targetDate, e);
      var front: seq<seq<LogFile>> := DropLast(projects);
      var p, f :| 0 <= p < |front| && 0 <= f < |front[p]|
                  && front[p][f].Readable? && Parsed(e) in front[p][f].lines;
      assert projects[p] == front[p];
    } else {
      var f := ProjectEntriesFrom(Last(projects), targetDate, e);
      assert projects[|projects| - 1] == Last(projects);
    }
  }

  lemma {:induction false} ProjectEntriesFrom(files: seq<LogFile>, targetDate: string, e: LogEntry) returns (f: nat)
    requires e in ProjectEntries(files, targetDate)
    ensures f < |files| && files[f].Readable? && Parsed(e) in files[f].lines && OnDate(e, targetDate)
  {
    if e in ProjectEntries(DropLast(files), targetDate) {
      f := ProjectEntriesFrom(DropLast(files), targetDate, e);
    } else {
      f := |files| - 1;
      FilterDateMembers(Last(files).lines, targetDate, e);
    }
  }

  /** `getTodayEntries` without the directory listing: every file of every
      project is filtered and appended, then the whole is sorted by time. */
  method GetTodayEntries(projects: seq<seq<LogFile>>, today: string) returns (result: seq<LogEntry>)
    ensures result == SortByTime(MergedEntries(projects, today))
  {
    var allEntries: seq<LogEntry> := [];
    for p := 0 to |projects|
      invariant allEntries == MergedEntries(projects[..p], today)
    {
      var logFiles := projects[p];
      ghost var before, acc := allEntries, [];
      for f := 0 to |logFiles|
        invariant acc == ProjectEntries(logFiles[..f], today)
        invariant allEntries == before + acc
      {
        var entries := ParseLogFile(logFiles[f], today);
        ProjectEntriesStep(logFiles, f, today);
        AppendAssoc(before, acc, entries);
        allEntries, acc := allEntries + entries, acc + entries;
      }
      assert logFiles[..|logFiles|] == logFiles;
      MergedEntriesStep(projects, p, today);
    }
    assert projects[..|projects|] == projects;
    result := SortByTime(allEntries);
  }

  lemma ProjectEntriesStep(files: seq<LogFile>, f: nat, targetDate: string)
    requires f < |files|
    ensures ProjectEntries(files[..f + 1], targetDate) == ProjectEntries(files[..f], targetDate) + FileEntries(files[f], targetDate)
  {
    AppendOne(files[..f], files[f]);
    assert files[..f + 1] == files[..f] + [files[f]];
  }

  lemma MergedEntriesStep(projects: seq<seq<LogFile>>, p: nat, targetDate: string)
    requires p < |projects|
    ensures MergedEntries(projects[..p + 1], targetDate) == MergedEntries(projects[..p], targetDate) + ProjectEntries(projects[p], targetDate)
  {
    AppendOne(projects[..p], projects[p]);
    assert projects[..p + 1] == projects[..p] + [projects[p]];
  }

  // ---------------------------------------------------------------------------
  // The sort. Array.prototype.sort is stable, so with a comparator on time it
  // orders by time and keeps equal times in encounter order. SortByTime is an
  // insertion sort with that behaviour; SortIsDetermined shows that any
  // arrangement that is sorted and keeps the order of equal times equals it.

  predicate SortedByTime(s: seq<LogEntry>) {
    forall i, j :: 0 <= i < j < |s| ==> s[i].time <= s[j].time
  }

  /** Inserts `e` after every element whose time is not later than its own. */
  function InsertByTime(s: seq<LogEntry>, e: LogEntry): (r: seq<LogEntry>)
    ensures |r| == |s| + 1
  {
    if s == [] || Last(s).time <= e.time then s + [e]
    else InsertByTime(DropLast(s), e) + [Last(s)]
  }

  function SortByTime(s: seq<LogEntry>): (r: seq<LogEntry>)
    ensures |r| == |s|
  {
    if s == [] then [] else InsertByTime(SortByTime(DropLast(s)), Last(s))
  }

  /** The records of `s` that carry time `t`, in order. */
  function WithTime(s: seq<LogEntry>, t: int): seq<LogEntry> {
    if s == [] then [] else WithTime(DropLast(s), t) + (if Last(s).time == t then [Last(s)] else [])
  }

  lemma {:induction false} InsertByTimeSorted(s: seq<LogEntry>, e: LogEntry)
    requires SortedByTime(s)
    ensures SortedByTime(InsertByTime(s, e))
    ensures InsertByTime(s, e) != [] && (Last(InsertByTime(s, e)) == e || Last(InsertByTime(s, e)) == Last(s))
  {
    if s == [] || Last(s).time <= e.time {
    } else {
      var s' := DropLast(s);
      assert SortedByTime(s');
      InsertByTimeSorted(s', e);
      var r := InsertByTime(s', e);
      assert forall i :: 0 <= i < |r| ==> r[i].time <= Last(s).time by {
        forall i | 0 <= i < |r| ensures r[i].time <= Last(s).time {
          InsertedBounded(s', e, Last(s).time, i);
        }
      }
    }
  }

  lemma {:induction false} InsertedBounded(s: seq<LogEntry>, e: LogEntry, bound: int, i: nat)
    requires forall k :: 0 <= k < |s| ==> s[k].time <= bound
    requires e.time <= bound
    requires i < |InsertByTime(s, e)|
    ensures InsertByTime(s, e)[i].time <= bound
  {
    if s == [] || Last(s).time <= e.time {
    } else if i < |s| - 1 {
      InsertedBounded(DropLast(s), e, bound, i);
    }
  }

  lemma {:induction false} SortByTimeSorted(s: seq<LogEntry>)
    ensures SortedByTime(SortByTime(s))
  {
    if s != [] {
      SortByTimeSorted(DropLast(s));
      InsertByTimeSorted(SortByTime(DropLast(s)), Last(s));
    }
  }

  lemma {:induction false} InsertByTimeMultiset(s: seq<LogEntry>, e: LogEntry)
    ensures multiset(InsertByTime(s, e)) == multiset(s) + multiset{e}
  {
    if s == [] || Last(s).time <= e.time {
    } else {
      InsertByTimeMultiset(DropLast(s), e);
      assert s == DropLast(s) + [Last(s)];
    }
  }

  /** The sorted result is a permutation of the merged records. */
  lemma {:induction false} SortByTimePermutes(s: seq<LogEntry>)
    ensures multiset(SortByTime(s)) == multiset(s)
  {
    if s != [] {
      SortByTimePermutes(DropLast(s));
      InsertByTimeMultiset(SortByTime(DropLast(s)), Last(s));
      assert s == DropLast(s) + [Last(s)];
    }
  }

  lemma {:induction false} InsertByTimeWithTime(s: seq<LogEntry>, e: LogEntry, t: int)
    ensures WithTime(InsertByTime(s, e), t) == WithTime(s, t) + (if e.time == t then [e] else [])
  {
    if s == [] || Last(s).time <= e.time {
      AppendOne(s, e);
    } else {
      var r := InsertByTime(DropLast(s), e);
      InsertByTimeWithTime(DropLast(s), e, t);
      AppendOne(r, Last(s));
    }
  }

  /** Stability: for every time, the records with that time appear in the
      sorted result in the same order as in the merged input. */
  lemma {:induction false} SortByTimeStable(s: seq<LogEntry>, t: int)
    ensures WithTime(SortByTime(s), t) == WithTime(s, t)
  {
    if s != [] {
      SortByTimeStable(DropLast(s), t);
      InsertByTimeWithTime(SortByTime(DropLast(s)), Last(s), t);
    }
  }

  lemma WithTimeLastNonEmpty(s: seq<LogEntry>)
    ensures s != [] ==> WithTime(s, Last(s).time) != []
  {
  }

  lemma {:induction false} WithTimeBelowLast(s: seq<LogEntry>, t: int)
    requires SortedByTime(s)
    ensures WithTime(s, t) != [] ==> s != [] && t <= Last(s).time
  {
    if s != [] {
      WithTimeBelowLast(DropLast(s), t);
    }
  }

  lemma LastTimesAgree(a: seq<LogEntry>, b: seq<LogEntry>)
    requires a != [] && b != []
    requires SortedByTime(a) && SortedByTime(b)
    requires forall t :: WithTime(a, t) == WithTime(b, t)
    ensures Last(a).time == Last(b).time
  {
    WithTimeLastNonEmpty(a);
    WithTimeLastNonEmpty(b);
    WithTimeBelowLast(a, Last(b).time);
    WithTimeBelowLast(b, Last(a).time);
  }

  lemma DropLastAgree(a: seq<LogEntry>, b: seq<LogEntry>, t: int)
    requires a != [] && b != [] && Last(a) == Last(b)
    requires WithTime(a, t) == WithTime(b, t)
    ensures WithTime(DropLast(a), t) == WithTime(DropLast(b), t)
  {
    if Last(a).time == t {
      assert WithTime(DropLast(a), t) == DropLast(WithTime(a, t));
      assert WithTime(DropLast(b), t) == DropLast(WithTime(b, t));
    }
  }

  /** A sorted arrangement that keeps the order of equal times is unique: two
      such arrangements of the same records are equal. */
  lemma {:induction false} SortedStableUnique(a: seq<LogEntry>, b: seq<LogEntry>)
    requires SortedByTime(a) && SortedByTime(b)
    requires forall t :: WithTime(a, t) == WithTime(b, t)
    ensures a == b
    decreases |a|
  {
    if a == [] || b == [] {
      WithTimeLastNonEmpty(a);
      WithTimeLastNonEmpty(b);
    } else {
      LastTimesAgree(a, b);
      var t := Last(a).time;
      assert WithTime(a, t) == WithTime(b, t);
      assert Last(a) == Last(WithTime(a, t));
      assert Last(b) == Last(WithTime(b, t));
      forall t' ensures WithTime(DropLast(a), t') == WithTime(DropLast(b), t') {
        DropLastAgree(a, b, t');
      }
      SortedStableUnique(DropLast(a), DropLast(b));
      assert a == DropLast(a) + [Last(a)];
      assert b == DropLast(b) + [Last(b)];
    }
  }

  /** Together: the result of `getTodayEntries` is the merged records, sorted
      by time, with ties in encounter order, and it is the only such arrangement. */
  lemma SortIsDetermined(merged: seq<LogEntry>, r: seq<LogEntry>)
    requires SortedByTime(r) && forall t :: WithTime(r, t) == WithTime(merged, t)
    ensures r == SortByTime(merged)
    ensures multiset(r) == multiset(merged)
  {
    SortByTimeSorted(merged);
    forall t ensures WithTime(SortByTime(merged), t) == WithTime(r, t) {
      SortByTimeStable(merged, t);
    }
    SortedStableUnique(r, SortByTime(merged));
    SortByTimePermutes(merged);
  }
}
