/**
 Every run of writes and restarts of the logger, in which any deletion of a file may fail.
 A record is numbered by the write that made it, so that no two records are the same.
 */
module LogRuns {
  import opened Results
  import opened LogRotation

  /** The logger and everything written so far. */
  datatype World = World(logs: Logs, written: seq<Record>)

  const EMPTY := World(Logs([], None, 0), [])

  /** A write, with the files that its prunes cannot delete, or a restart. */
  datatype Event = Written(bytes: nat, date: nat, now: nat, opening: set<Name>, full: set<Name>) | Restarted

  function Next(w: World, e: Event): Record
    requires e.Written?
  {
    Record(|w.written|, e.bytes)
  }

  function Step(w: World, e: Event, limits: Limits): World
  {
    match e
    case Written(_, date, now, opening, full) =>
      World(Write(w.logs, Next(w, e), date, now, opening, full, limits), w.written + [Next(w, e)])
    case Restarted => w.(logs := Restart(w.logs))
  }

  function Run(w: World, es: seq<Event>, limits: Limits): World
    decreases |es|
  {
    if es == [] then w else Run(Step(w, es[0], limits), es[1..], limits)
  }

  /** The clock moves forward: dates never go back and times increase. */
  predicate ClockAdvances(es: seq<Event>, date: nat, now: nat)
    decreases |es|
  {
    es == [] ||
    match es[0]
    case Written(_, d, t, _, _) => date <= d && now < t && ClockAdvances(es[1..], d, t)
    case Restarted => ClockAdvances(es[1..], date, now)
  }

  // ----- The invariant -----

  /** A file comes before all of a list, by name and by time. */
  predicate Precedes(f: LogFile, files: seq<LogFile>)
  {
    forall i :: 0 <= i < |files| ==> Before(f.name, files[i].name) && f.modifiedAt < files[i].modifiedAt
  }

  /** Names and times increase together, and neither is ahead of the clock. */
  predicate InOrder(files: seq<LogFile>, date: nat, now: nat)
  {
    files == [] ||
    (Precedes(files[0], files[1..]) && files[0].name.date <= date && files[0].modifiedAt <= now && InOrder(files[1..], date, now))
  }

  predicate FitsLimit(f: LogFile, limits: Limits) { Size(f) <= limits.file || |f.records| == 1 }

  /** A file is within the limit unless it holds a single record. */
  predicate Bounded(files: seq<LogFile>, limits: Limits)
  {
    files == [] || (FitsLimit(files[0], limits) && Bounded(files[1..], limits))
  }

  /** No file is empty. */
  predicate Filled(files: seq<LogFile>) { files == [] || (files[0].records != [] && Filled(files[1..])) }

  predicate FilledButLast(files: seq<LogFile>)
  {
    |files| < 2 || (files[0].records != [] && FilledButLast(files[1..]))
  }

  function Last(files: seq<LogFile>): LogFile
    requires files != []
  {
    files[|files| - 1]
  }

  /** The open stream is the last file, and its size has been counted correctly. */
  predicate StreamIsLast(l: Logs)
  {
    l.stream.Some? ==> l.files != [] && Last(l.files).name == l.stream.value && l.streamSize == Size(Last(l.files))
  }

  predicate Sound(l: Logs, date: nat, now: nat, limits: Limits)
  {
    InOrder(l.files, date, now) && Bounded(l.files, limits) && StreamIsLast(l)
  }

  /** The numbers rise from above `low`. */
  predicate Rising(c: seq<Record>, low: int)
  {
    c == [] || (c[0].id > low && Rising(c[1..], c[0].id))
  }

  /** Each record is the one written with its number. */
  predicate Genuine(c: seq<Record>, written: seq<Record>)
  {
    c == [] || (c[0].id < |written| && written[c[0].id] == c[0] && Genuine(c[1..], written))
  }

  /** The records written, in order, with some left out. */
  predicate SomeLeftOut(c: seq<Record>, written: seq<Record>) { Genuine(c, written) && Rising(c, -1) }

  predicate Numbered(written: seq<Record>) { forall i :: 0 <= i < |written| ==> written[i].id == i }

  predicate Inv(w: World, date: nat, now: nat, limits: Limits)
  {
    && Sound(w.logs, date, now, limits) && Filled(w.logs.files)
    && Numbered(w.written) && SomeLeftOut(Contents(w.logs.files), w.written)
  }

  // ----- Sorting by time changes nothing -----

  lemma {:induction false} SortedStaysPut(files: seq<LogFile>, date: nat, now: nat)
    requires InOrder(files, date, now)
    ensures ByTime(files) == files
  {
    if files != [] {
      SortedStaysPut(files[1..], date, now);
      assert Insert(files[0], files[1..]) == [files[0]] + files[1..];
    }
  }

  // ----- Leaving files out -----

  lemma {:induction false} WithoutFollows(f: LogFile, files: seq<LogFile>, names: set<Name>)
    requires Precedes(f, files)
    ensures Precedes(f, Without(files, names))
  {
    if files != [] {
      assert Precedes(f, files[1..]);
      WithoutFollows(f, files[1..], names);
    }
  }

  lemma {:induction false} WithoutIsInOrder(files: seq<LogFile>, names: set<Name>, date: nat, now: nat)
    requires InOrder(files, date, now)
    ensures InOrder(Without(files, names), date, now)
  {
    if files != [] {
      var rest := Without(files[1..], names);
      WithoutIsInOrder(files[1..], names, date, now);
      WithoutFollows(files[0], files[1..], names);
      assert ([files[0]] + rest)[1..] == rest && [] + rest == rest;
    }
  }

  lemma {:induction false} WithoutIsBounded(files: seq<LogFile>, names: set<Name>, limits: Limits)
    requires Bounded(files, limits)
    ensures Bounded(Without(files, names), limits)
  {
    if files != [] {
      var rest := Without(files[1..], names);
      WithoutIsBounded(files[1..], names, limits);
      assert ([files[0]] + rest)[1..] == rest && [] + rest == rest;
    }
  }

  /** The last file stays if it is not among those left out. */
  lemma {:induction false} WithoutKeepsLast(files: seq<LogFile>, names: set<Name>)
    requires files != [] && Last(files).name !in names
    ensures Without(files, names) != [] && Last(Without(files, names)) == Last(files)
  {
    if |files| > 1 {
      var rest := Without(files[1..], names);
      assert Last(files[1..]) == Last(files);
      WithoutKeepsLast(files[1..], names);
      assert Last([files[0]] + rest) == Last(rest) && [] + rest == rest;
    } else {
      assert files[1..] == [] && [files[0]] + [] == [files[0]];
    }
  }

  lemma {:induction false} WithoutKeepsFilled(files: seq<LogFile>, names: set<Name>)
    requires FilledButLast(files) && files != [] && Last(files).name !in names
    ensures FilledButLast(Without(files, names))
  {
    if |files| > 1 {
      var rest := Without(files[1..], names);
      assert Last(files[1..]) == Last(files);
      WithoutKeepsFilled(files[1..], names);
      assert ([files[0]] + rest)[1..] == rest && [] + rest == rest;
    } else {
      assert files[1..] == [] && [files[0]] + [] == [files[0]];
    }
  }

  lemma {:induction false} FilledLast(files: seq<LogFile>)
    requires files != []
    ensures Filled(files) <==> FilledButLast(files) && Last(files).records != []
  {
    if |files| > 1 {
      FilledLast(files[1..]);
      assert Last(files[1..]) == Last(files);
    }
  }

  lemma {:induction false} FilledInit(init: seq<LogFile>, last: LogFile)
    ensures FilledButLast(init + [last]) <==> Filled(init)
  {
    if init != [] {
      assert (init + [last])[1..] == init[1..] + [last];
      FilledInit(init[1..], last);
    }
  }

  // ----- Numbers of records -----

  function LastId(c: seq<Record>, low: int): int { if c == [] then low else c[|c| - 1].id }

  lemma {:induction false} RisingConcat(a: seq<Record>, b: seq<Record>, low: int)
    ensures Rising(a + b, low) <==> Rising(a, low) && Rising(b, LastId(a, low))
  {
    if a == [] {
      assert a + b == b;
    } else {
      assert (a + b)[1..] == a[1..] + b;
      RisingConcat(a[1..], b, a[0].id);
    }
  }

  lemma {:induction false} RisingBelow(c: seq<Record>, low: int, lower: int)
    requires lower <= low && Rising(c, low)
    ensures Rising(c, lower) && LastId(c, low) >= low
  {
    if c != [] { RisingBelow(c[1..], c[0].id, c[0].id); }
  }

  lemma {:induction false} GenuineConcat(a: seq<Record>, b: seq<Record>, written: seq<Record>)
    ensures Genuine(a + b, written) <==> Genuine(a, written) && Genuine(b, written)
  {
    if a == [] {
      assert a + b == b;
    } else {
      assert (a + b)[1..] == a[1..] + b;
      GenuineConcat(a[1..], b, written);
    }
  }

  lemma {:induction false} GenuineGrows(c: seq<Record>, written: seq<Record>, r: Record)
    requires Genuine(c, written)
    ensures Genuine(c, written + [r]) && (c != [] ==> LastId(c, -1) < |written|)
  {
    if c != [] {
      GenuineGrows(c[1..], written, r);
      if |c| > 1 { assert LastId(c, -1) == LastId(c[1..], -1); }
    }
  }

  /** Leaving files out leaves records out. */
  lemma {:induction false} WithoutLeavesOut(files: seq<LogFile>, names: set<Name>, written: seq<Record>, low: int)
    requires Genuine(Contents(files), written) && Rising(Contents(files), low)
    ensures Genuine(Contents(Without(files, names)), written) && Rising(Contents(Without(files, names)), low)
  {
    if files != [] {
      var (head, rest) := (files[0].records, Without(files[1..], names));
      GenuineConcat(head, Contents(files[1..]), written);
      RisingConcat(head, Contents(files[1..]), low);
      WithoutLeavesOut(files[1..], names, written, LastId(head, low));
      if files[0].name in names {
        RisingBelow(head, low, low);
        RisingBelow(Contents(rest), LastId(head, low), low);
        assert [] + rest == rest;
      } else {
        FrontAgain(files[0], rest, written, low);
      }
    }
  }

  lemma FrontAgain(f: LogFile, rest: seq<LogFile>, written: seq<Record>, low: int)
    requires Genuine(f.records, written) && Rising(f.records, low)
    requires Genuine(Contents(rest), written) && Rising(Contents(rest), LastId(f.records, low))
    ensures Genuine(Contents([f] + rest), written) && Rising(Contents([f] + rest), low)
  {
    assert ([f] + rest)[1..] == rest;
    GenuineConcat(f.records, Contents(rest), written);
    RisingConcat(f.records, Contents(rest), low);
  }

  /** A new record is one more. */
  lemma OneMoreRecord(c: seq<Record>, written: seq<Record>, r: Record)
    requires SomeLeftOut(c, written) && r.id == |written|
    ensures SomeLeftOut(c + [r], written + [r])
  {
    GenuineGrows(c, written, r);
    GenuineConcat(c, [r], written + [r]);
    RisingConcat(c, [r], -1);
    assert [r][1..] == [];
  }

  // ----- What a prune deletes -----

  predicate HasName(files: seq<LogFile>, n: Name) { files != [] && (files[0].name == n || HasName(files[1..], n)) }

  lemma {:induction false} PrecedingIsAbsent(f: LogFile, files: seq<LogFile>)
    requires Precedes(f, files)
    ensures !HasName(files, f.name)
  {
    if files != [] {
      assert Precedes(f, files[1..]);
      PrecedingIsAbsent(f, files[1..]);
    }
  }

  lemma {:induction false} DeletedAreListed(files: seq<LogFile>, total: int, active: Name, stuck: set<Name>, limit: nat, n: Name)
    requires n in Deleted(files, total, active, stuck, limit)
    ensures HasName(files, n) && n != active && n !in stuck
  {
    if files[0].name == active || files[0].name in stuck {
      DeletedAreListed(files[1..], total, active, stuck, limit, n);
    } else if n != files[0].name {
      DeletedAreListed(files[1..], total - Size(files[0]), active, stuck, limit, n);
    }
  }

  lemma PruneIsWithout(files: seq<LogFile>, active: Name, stuck: set<Name>, date: nat, now: nat, limits: Limits)
    requires InOrder(files, date, now)
    ensures Prune(files, active, stuck, limits) ==
            Without(files, Deleted(files, TotalSize(files), active, stuck, limits.total))
  {
    SortedStaysPut(files, date, now);
  }

  /** A prune, whatever it cannot delete, leaves a sound logger with the same last file, and records in order. */
  lemma PruneKeepsSound(l: Logs, stuck: set<Name>, written: seq<Record>, date: nat, now: nat, limits: Limits)
    requires Sound(l, date, now, limits) && l.stream.Some? && SomeLeftOut(Contents(l.files), written)
    ensures var l' := PruneOpen(l, stuck, limits);
            && Sound(l', date, now, limits) && SomeLeftOut(Contents(l'.files), written)
            && l'.files != [] && Last(l'.files) == Last(l.files)
            && (FilledButLast(l.files) ==> FilledButLast(l'.files))
  {
    var deleted := Deleted(l.files, TotalSize(l.files), l.stream.value, stuck, limits.total);
    PruneIsWithout(l.files, l.stream.value, stuck, date, now, limits);
    if l.stream.value in deleted {
      DeletedAreListed(l.files, TotalSize(l.files), l.stream.value, stuck, limits.total, l.stream.value);
    }
    WithoutIsInOrder(l.files, deleted, date, now);
    WithoutIsBounded(l.files, deleted, limits);
    WithoutKeepsLast(l.files, deleted);
    if FilledButLast(l.files) { WithoutKeepsFilled(l.files, deleted); }
    WithoutLeavesOut(l.files, deleted, written, -1);
  }

  // ----- A prune keeps a suffix exactly when it leaves no hole -----

  predicate IsSuffix(part: seq<Record>, whole: seq<Record>)
  {
    |part| <= |whole| && whole[|whole| - |part|..] == part
  }

  /** A file is deleted after an older one, not the active one, could not be. */
  predicate LeavesHole(files: seq<LogFile>, total: int, active: Name, stuck: set<Name>, limit: nat, skipped: bool)
  {
    if files == [] || total <= limit then false
    else if files[0].name == active then LeavesHole(files[1..], total, active, stuck, limit, skipped)
    else if files[0].name in stuck then LeavesHole(files[1..], total, active, stuck, limit, true)
    else skipped || LeavesHole(files[1..], total - Size(files[0]), active, stuck, limit, skipped)
  }

  lemma {:induction false} WithoutOther(files: seq<LogFile>, names: set<Name>, n: Name)
    requires !HasName(files, n)
    ensures Without(files, {n} + names) == Without(files, names)
  {
    if files != [] { WithoutOther(files[1..], names, n); }
  }

  lemma {:induction false} NothingIsDeleted(files: seq<LogFile>, total: int, active: Name, stuck: set<Name>, limit: nat)
    requires !LeavesHole(files, total, active, stuck, limit, true)
    ensures Deleted(files, total, active, stuck, limit) == {}
  {
    if files != [] && total > limit {
      NothingIsDeleted(files[1..], total, active, stuck, limit);
    }
  }

  /** The first file of an ordered list, when it is deleted. */
  lemma FirstIsDeleted(files: seq<LogFile>, total: int, active: Name, stuck: set<Name>, limit: nat, date: nat, now: nat)
    requires InOrder(files, date, now) && files != [] && total > limit
    requires files[0].name != active && files[0].name !in stuck
    ensures Without(files, Deleted(files, total, active, stuck, limit)) ==
            Without(files[1..], Deleted(files[1..], total - Size(files[0]), active, stuck, limit))
  {
    var rest := Deleted(files[1..], total - Size(files[0]), active, stuck, limit);
    PrecedingIsAbsent(files[0], files[1..]);
    WithoutOther(files[1..], rest, files[0].name);
    assert [] + Without(files[1..], rest) == Without(files[1..], rest);
  }

  /** The first file, when it cannot be deleted. */
  lemma FirstIsStuck(files: seq<LogFile>, total: int, active: Name, stuck: set<Name>, limit: nat)
    requires files != [] && total > limit && files[0].name in stuck && files[0].name != active
    ensures Without(files, Deleted(files, total, active, stuck, limit)) ==
            [files[0]] + Without(files[1..], Deleted(files[1..], total, active, stuck, limit))
  {
    if files[0].name in Deleted(files[1..], total, active, stuck, limit) {
      DeletedAreListed(files[1..], total, active, stuck, limit, files[0].name);
    }
  }

  lemma FirstIsNotLast(files: seq<LogFile>, date: nat, now: nat)
    requires InOrder(files, date, now) && |files| > 1
    ensures files[0].name != Last(files).name && Last(files[1..]) == Last(files)
  {
    assert files[1..][|files| - 2] == Last(files);
  }

  /** Without a hole the oldest files go, from the first one on. */
  lemma {:induction false} NoHoleDropsPrefix(files: seq<LogFile>, total: int, active: Name, stuck: set<Name>, limit: nat,
                                            date: nat, now: nat) returns (k: nat)
    requires InOrder(files, date, now) && files != [] && Last(files).name == active
    requires !LeavesHole(files, total, active, stuck, limit, false)
    ensures k < |files| && Without(files, Deleted(files, total, active, stuck, limit)) == files[k..]
  {
    k := 0;
    WithoutNothing(files);
    if total > limit && |files| > 1 {
      FirstIsNotLast(files, date, now);
      if files[0].name in stuck {
        NothingIsDeleted(files[1..], total, active, stuck, limit);
      } else {
        FirstIsDeleted(files, total, active, stuck, limit, date, now);
        k := NoHoleDropsPrefix(files[1..], total - Size(files[0]), active, stuck, limit, date, now);
        assert files[1..][k..] == files[k + 1..];
        k := k + 1;
      }
    }
  }

  lemma {:induction false} ContentsConcat(a: seq<LogFile>, b: seq<LogFile>)
    ensures Contents(a + b) == Contents(a) + Contents(b)
  {
    if a == [] {
      assert a + b == b;
    } else {
      assert (a + b)[1..] == a[1..] + b;
      ContentsConcat(a[1..], b);
    }
  }

  lemma TailOfSuffix(a: seq<Record>, b: seq<Record>, whole: seq<Record>)
    requires IsSuffix(a + b, whole)
    ensures IsSuffix(b, whole)
  {
    var at := |whole| - |a + b|;
    assert whole[at..][|a|..] == b;
  }

  lemma DroppingKeepsSuffix(files: seq<LogFile>, k: nat, written: seq<Record>)
    requires k <= |files| && IsSuffix(Contents(files), written)
    ensures IsSuffix(Contents(files[k..]), written)
  {
    ContentsConcat(files[..k], files[k..]);
    assert files == files[..k] + files[k..];
    TailOfSuffix(Contents(files[..k]), Contents(files[k..]), written);
  }

  lemma {:induction false} WithoutIsShorter(files: seq<LogFile>, names: set<Name>)
    ensures |Contents(Without(files, names))| <= |Contents(files)|
  {
    if files != [] {
      var rest := Without(files[1..], names);
      WithoutIsShorter(files[1..], names);
      assert ([files[0]] + rest)[1..] == rest && [] + rest == rest;
    }
  }

  /** When something older was skipped, leaving a hole means that records go. */
  lemma {:induction false} HoleLosesRecords(files: seq<LogFile>, total: int, active: Name, stuck: set<Name>, limit: nat,
                                           date: nat, now: nat)
    requires InOrder(files, date, now) && files != [] && Last(files).name == active && FilledButLast(files)
    requires LeavesHole(files, total, active, stuck, limit, true)
    ensures |Contents(Without(files, Deleted(files, total, active, stuck, limit)))| < |Contents(files)|
  {
    if |files| > 1 {
      FirstIsNotLast(files, date, now);
      if files[0].name in stuck {
        var rest := Without(files[1..], Deleted(files[1..], total, active, stuck, limit));
        FirstIsStuck(files, total, active, stuck, limit);
        HoleLosesRecords(files[1..], total, active, stuck, limit, date, now);
        assert ([files[0]] + rest)[1..] == rest;
      } else {
        FirstIsDeleted(files, total, active, stuck, limit, date, now);
        WithoutIsShorter(files[1..], Deleted(files[1..], total - Size(files[0]), active, stuck, limit));
      }
    }
  }

  /** Two suffixes that begin with the same numbered record are equally long. */
  lemma SuffixesBeginApart(a: seq<Record>, b: seq<Record>, written: seq<Record>)
    requires Numbered(written) && IsSuffix(a, written) && IsSuffix(b, written) && a != [] && b != [] && a[0] == b[0]
    ensures |a| == |b|
  {
    assert written[|written| - |a|] == a[0] && written[|written| - |b|] == b[0];
  }

  lemma {:induction false} HoleBreaksSuffix(files: seq<LogFile>, total: int, active: Name, stuck: set<Name>, limit: nat,
                                           written: seq<Record>, date: nat, now: nat)
    requires InOrder(files, date, now) && files != [] && Last(files).name == active && FilledButLast(files)
    requires LeavesHole(files, total, active, stuck, limit, false)
    requires Numbered(written) && IsSuffix(Contents(files), written)
    ensures !IsSuffix(Contents(Without(files, Deleted(files, total, active, stuck, limit))), written)
  {
    if |files| > 1 {
      FirstIsNotLast(files, date, now);
      if files[0].name in stuck {
        var rest := Without(files[1..], Deleted(files[1..], total, active, stuck, limit));
        FirstIsStuck(files, total, active, stuck, limit);
        HoleLosesRecords(files[1..], total, active, stuck, limit, date, now);
        assert ([files[0]] + rest)[1..] == rest;
        if IsSuffix(files[0].records + Contents(rest), written) {
          SuffixesBeginApart(files[0].records + Contents(rest), Contents(files), written);
        }
      } else {
        FirstIsDeleted(files, total, active, stuck, limit, date, now);
        TailOfSuffix(files[0].records, Contents(files[1..]), written);
        HoleBreaksSuffix(files[1..], total - Size(files[0]), active, stuck, limit, written, date, now);
      }
    }
  }

  /** The prune of an open logger leaves a hole. */
  predicate PruneLeavesHole(l: Logs, stuck: set<Name>, limits: Limits)
    requires l.stream.Some?
  {
    LeavesHole(l.files, TotalSize(l.files), l.stream.value, stuck, limits.total, false)
  }

  /** A prune keeps a suffix of everything written if and only if it leaves no hole. */
  lemma PruneKeepsSuffixExactly(l: Logs, stuck: set<Name>, written: seq<Record>, date: nat, now: nat, limits: Limits)
    requires Sound(l, date, now, limits) && l.stream.Some? && FilledButLast(l.files)
    requires Numbered(written) && IsSuffix(Contents(l.files), written)
    ensures IsSuffix(Contents(PruneOpen(l, stuck, limits).files), written) <==> !PruneLeavesHole(l, stuck, limits)
  {
    PruneIsWithout(l.files, l.stream.value, stuck, date, now, limits);
    if PruneLeavesHole(l, stuck, limits) {
      HoleBreaksSuffix(l.files, TotalSize(l.files), l.stream.value, stuck, limits.total, written, date, now);
    } else {
      var k := NoHoleDropsPrefix(l.files, TotalSize(l.files), l.stream.value, stuck, limits.total, date, now);
      DroppingKeepsSuffix(l.files, k, written);
    }
  }

  /** Without failures a prune drops the oldest files, from the first one on. */
  lemma PruneDropsOldest(files: seq<LogFile>, active: Name, date: nat, now: nat, limits: Limits) returns (k: nat)
    requires InOrder(files, date, now) && files != [] && Last(files).name == active
    ensures k < |files| && Prune(files, active, {}, limits) == files[k..]
  {
    PruneIsWithout(files, active, {}, date, now, limits);
    NoFailuresNoHole(files, TotalSize(files), active, limits.total);
    k := NoHoleDropsPrefix(files, TotalSize(files), active, {}, limits.total, date, now);
  }

  lemma {:induction false} NoFailuresNoHole(files: seq<LogFile>, total: int, active: Name, limit: nat)
    ensures !LeavesHole(files, total, active, {}, limit, false)
  {
    if files != [] && total > limit {
      NoFailuresNoHole(files[1..], total, active, limit);
      NoFailuresNoHole(files[1..], total - Size(files[0]), active, limit);
    }
  }

  // ----- How much a prune leaves -----

  predicate AllStuck(files: seq<LogFile>, active: Name, stuck: set<Name>)
  {
    files == [] || ((files[0].name == active || files[0].name in stuck) && AllStuck(files[1..], active, stuck))
  }

  lemma {:induction false} PruneSuffices(files: seq<LogFile>, total: int, active: Name, stuck: set<Name>, limit: nat,
                                        date: nat, now: nat)
    requires InOrder(files, date, now) && total >= TotalSize(files)
    ensures var kept := Without(files, Deleted(files, total, active, stuck, limit));
            TotalSize(kept) <= limit - (total - TotalSize(files)) || AllStuck(kept, active, stuck)
  {
    WithoutNothing(files);
    if files != [] && total > limit {
      var f := files[0];
      if f.name == active || f.name in stuck {
        var deleted := Deleted(files[1..], total, active, stuck, limit);
        if f.name in deleted { DeletedAreListed(files[1..], total, active, stuck, limit, f.name); }
        PruneSuffices(files[1..], total, active, stuck, limit, date, now);
        var rest := Without(files[1..], deleted);
        assert ([f] + rest)[1..] == rest;
      } else {
        FirstIsDeleted(files, total, active, stuck, limit, date, now);
        PruneSuffices(files[1..], total - Size(f), active, stuck, limit, date, now);
      }
    }
  }

  /** After a prune the total is within the limit, or only the active file and files that cannot be deleted are left. */
  lemma PruneIsSufficient(files: seq<LogFile>, active: Name, stuck: set<Name>, date: nat, now: nat, limits: Limits)
    requires InOrder(files, date, now)
    ensures var kept := Prune(files, active, stuck, limits);
            TotalSize(kept) <= limits.total || AllStuck(kept, active, stuck)
  {
    PruneIsWithout(files, active, stuck, date, now, limits);
    PruneSuffices(files, TotalSize(files), active, stuck, limits.total, date, now);
  }

  // ----- One write -----

  lemma {:induction false} LatestIsLast(files: seq<LogFile>, date: nat, now: nat)
    requires InOrder(files, date, now) && files != []
    ensures Last(files).name.date <= date && Last(files).modifiedAt <= now
    ensures Last(files).name.date == date ==> Latest(files, date) == Some(Last(files))
    ensures Last(files).name.date < date ==> Latest(files, date) == None
  {
    if |files| > 1 {
      LatestIsLast(files[1..], date, now);
      assert files[1..][|files| - 2] == Last(files);
    }
  }

  /** A name after all those in use. */
  predicate IsNewName(files: seq<LogFile>, name: Name)
  {
    forall i :: 0 <= i < |files| ==> Before(files[i].name, name)
  }

  lemma {:induction false} AfterLastIsNew(files: seq<LogFile>, name: Name, date: nat, now: nat)
    requires InOrder(files, date, now) && (files == [] || Before(Last(files).name, name))
    ensures IsNewName(files, name)
  {
    if files != [] {
      if |files| > 1 { assert files[1..][|files| - 2] == Last(files); }
      AfterLastIsNew(files[1..], name, date, now);
      forall i | 0 <= i < |files| ensures Before(files[i].name, name) {
        if i > 0 { assert files[1..][i - 1] == files[i]; }
      }
    }
  }

  /** The chosen file is the last one with room, or a new one after all the others. */
  lemma ResolveIsLastOrNew(l: Logs, date: nat, now: nat, bytes: nat, limits: Limits)
    requires InOrder(l.files, date, now) && StreamIsLast(l)
    ensures var name := Resolve(l.files, date, bytes, l.stream, limits);
            || (l.files != [] && name == Last(l.files).name && Size(Last(l.files)) + bytes <= limits.file)
            || (name.date == date && IsNewName(l.files, name))
  {
    var name := Resolve(l.files, date, bytes, l.stream, limits);
    if l.files != [] {
      LatestIsLast(l.files, date, now);
      if name != Last(l.files).name || Size(Last(l.files)) + bytes > limits.file {
        assert Before(Last(l.files).name, name);
        AfterLastIsNew(l.files, name, date, now);
      }
    }
  }

  lemma {:induction false} SnocInOrder(files: seq<LogFile>, f: LogFile, date: nat, before: nat, now: nat)
    requires InOrder(files, date, before) && before < now && f.modifiedAt == now && f.name.date == date && IsNewName(files, f.name)
    ensures InOrder(files + [f], date, now)
  {
    if files == [] {
      assert [f][1..] == [];
    } else {
      assert (files + [f])[1..] == files[1..] + [f];
      assert forall i :: 0 <= i < |files| - 1 ==> files[1..][i] == files[i + 1];
      SnocInOrder(files[1..], f, date, before, now);
    }
  }

  lemma {:induction false} SnocIsBounded(files: seq<LogFile>, f: LogFile, limits: Limits)
    requires Bounded(files, limits) && FitsLimit(f, limits)
    ensures Bounded(files + [f], limits)
  {
    if files == [] {
      assert [f][1..] == [];
    } else {
      assert (files + [f])[1..] == files[1..] + [f];
      SnocIsBounded(files[1..], f, limits);
    }
  }

  lemma {:induction false} LaterInOrder(files: seq<LogFile>, date: nat, before: nat, now: nat)
    requires InOrder(files, date, before) && before <= now
    ensures InOrder(files, date, now)
  {
    if files != [] { LaterInOrder(files[1..], date, before, now); }
  }

  lemma {:induction false} SizeOfLast(files: seq<LogFile>, date: nat, now: nat)
    requires InOrder(files, date, now) && files != []
    ensures SizeOf(files, Last(files).name) == Size(Last(files)) && HasFile(files, Last(files).name)
  {
    if |files| > 1 {
      FirstIsNotLast(files, date, now);
      SizeOfLast(files[1..], date, now);
    }
    assert files[|files| - 1].name == Last(files).name;
  }

  lemma {:induction false} NewNameIsMissing(files: seq<LogFile>, name: Name)
    requires IsNewName(files, name)
    ensures SizeOf(files, name) == 0 && !HasFile(files, name)
  {
    if files != [] {
      assert forall i :: 0 <= i < |files| - 1 ==> files[1..][i] == files[i + 1];
      NewNameIsMissing(files[1..], name);
    }
  }

  /** Room for the next record, in a file with room or a fresh one. */
  predicate HasRoom(l: Logs, bytes: nat, limits: Limits)
  {
    l.files != [] && (l.streamSize + bytes <= limits.file || Last(l.files).records == [])
  }

  /** Moving the stream keeps the logger sound and the records as they are, and makes room. */
  lemma MovedIsSound(l: Logs, date: nat, before: nat, now: nat, bytes: nat, limits: Limits)
    requires Sound(l, date, before, limits) && Filled(l.files) && before < now
    ensures var l' := Moved(l, date, now, bytes, limits);
            && Sound(l', date, now, limits) && HasRoom(l', bytes, limits)
            && Contents(l'.files) == Contents(l.files) && FilledButLast(l'.files)
  {
    var name := Resolve(l.files, date, bytes, l.stream, limits);
    ResolveIsLastOrNew(l, date, before, bytes, limits);
    if l.files != [] && name == Last(l.files).name && Size(Last(l.files)) + bytes <= limits.file {
      SizeOfLast(l.files, date, before);
      LaterInOrder(l.files, date, before, now);
      FilledLast(l.files);
    } else {
      var f := LogFile(name, [], now);
      NewNameIsMissing(l.files, name);
      SnocInOrder(l.files, f, date, before, now);
      SnocIsBounded(l.files, f, limits);
      ContentsConcat(l.files, [f]);
      assert Contents([f]) == [] + Contents([]);
      FilledInit(l.files, f);
    }
  }

  /** `createLogStream`, whatever it cannot delete. */
  lemma CreateStreamIsSound(w: World, e: Event, date: nat, before: nat, limits: Limits)
    requires e.Written? && Inv(w, date, before, limits) && date <= e.date && before < e.now
    ensures var l := CreateStream(w.logs, e.date, e.now, e.bytes, e.opening, limits);
            && Sound(l, e.date, e.now, limits) && HasRoom(l, e.bytes, limits) && FilledButLast(l.files)
            && SomeLeftOut(Contents(l.files), w.written)
  {
    LaterDate(w.logs.files, date, e.date, before);
    if KeepsStream(w.logs, e.date, e.bytes, limits) {
      LaterInOrder(w.logs.files, e.date, before, e.now);
      FilledLast(w.logs.files);
    } else {
      MovedIsSound(w.logs, e.date, before, e.now, e.bytes, limits);
      PruneKeepsSound(Moved(w.logs, e.date, e.now, e.bytes, limits), e.opening, w.written, e.date, e.now, limits);
    }
  }

  lemma {:induction false} LaterDate(files: seq<LogFile>, before: nat, date: nat, now: nat)
    requires InOrder(files, before, now) && before <= date
    ensures InOrder(files, date, now)
  {
    if files != [] { LaterDate(files[1..], before, date, now); }
  }

  function Longer(f: LogFile, r: Record, now: nat): LogFile { f.(records := f.records + [r], modifiedAt := now) }

  lemma LongerSize(f: LogFile, r: Record, now: nat)
    ensures Size(Longer(f, r, now)) == Size(f) + r.bytes
  {
    assert (f.records + [r])[..|f.records|] == f.records;
  }

  lemma {:induction false} AppendGoesLast(files: seq<LogFile>, r: Record, date: nat, now: nat)
    requires InOrder(files, date, now) && files != []
    ensures Append(files, Last(files).name, r, now) == files[..|files| - 1] + [Longer(Last(files), r, now)]
  {
    if |files| > 1 {
      FirstIsNotLast(files, date, now);
      AppendGoesLast(files[1..], r, date, now);
      assert files[..|files| - 1] == [files[0]] + files[1..][..|files| - 2];
    } else {
      assert files[1..] == [];
    }
  }

  lemma {:induction false} LongerInOrder(init: seq<LogFile>, last: LogFile, r: Record, date: nat, now: nat)
    requires InOrder(init + [last], date, now)
    ensures InOrder(init + [Longer(last, r, now)], date, now)
  {
    if init == [] {
      assert [Longer(last, r, now)][1..] == [];
    } else {
      var (files, files') := (init + [last], init + [Longer(last, r, now)]);
      assert files[1..] == init[1..] + [last] && files'[1..] == init[1..] + [Longer(last, r, now)];
      LongerInOrder(init[1..], last, r, date, now);
      LastIsNotLater(files[1..], date, now);
      forall i | 0 <= i < |files'[1..]|
        ensures Before(init[0].name, files'[1..][i].name) && init[0].modifiedAt < files'[1..][i].modifiedAt
      {
        assert Before(init[0].name, files[1..][i].name) && init[0].modifiedAt < files[1..][i].modifiedAt;
      }
    }
  }

  lemma {:induction false} LastIsNotLater(files: seq<LogFile>, date: nat, now: nat)
    requires InOrder(files, date, now) && files != []
    ensures Last(files).modifiedAt <= now
  {
    if |files| > 1 {
      assert files[1..][|files| - 2] == Last(files);
      LastIsNotLater(files[1..], date, now);
    }
  }

  lemma {:induction false} LongerIsBounded(init: seq<LogFile>, last: LogFile, r: Record, now: nat, limits: Limits)
    requires Bounded(init + [last], limits) && FitsLimit(Longer(last, r, now), limits)
    ensures Bounded(init + [Longer(last, r, now)], limits)
  {
    if init == [] {
      assert [Longer(last, r, now)][1..] == [];
    } else {
      assert (init + [last])[1..] == init[1..] + [last];
      assert (init + [Longer(last, r, now)])[1..] == init[1..] + [Longer(last, r, now)];
      LongerIsBounded(init[1..], last, r, now, limits);
    }
  }

  lemma LongerContents(init: seq<LogFile>, last: LogFile, r: Record, now: nat)
    ensures Contents(init + [Longer(last, r, now)]) == Contents(init + [last]) + [r]
  {
    ContentsConcat(init, [last]);
    ContentsConcat(init, [Longer(last, r, now)]);
    assert Contents([last]) == last.records + Contents([]) == last.records;
    assert Contents([Longer(last, r, now)]) == last.records + [r] + Contents([]) == last.records + [r];
    assert Contents(init) + (last.records + [r]) == (Contents(init) + last.records) + [r];
  }

  /** The record ends up at the end of the last file. */
  lemma ExtendIsSound(l: Logs, r: Record, date: nat, now: nat, limits: Limits)
    requires Sound(l, date, now, limits) && l.stream.Some? && HasRoom(l, r.bytes, limits) && FilledButLast(l.files)
    ensures var l' := Extend(l, r, now);
            && Sound(l', date, now, limits) && Filled(l'.files) && Contents(l'.files) == Contents(l.files) + [r]
  {
    var (init, last) := (l.files[..|l.files| - 1], Last(l.files));
    assert l.files == init + [last];
    AppendGoesLast(l.files, r, date, now);
    LongerSize(last, r, now);
    LongerInOrder(init, last, r, date, now);
    LongerIsBounded(init, last, r, now, limits);
    LongerContents(init, last, r, now);
    FilledInit(init, last);
    FilledInit(init, Longer(last, r, now));
    FilledLast(init + [Longer(last, r, now)]);
  }

  /** The logger between the append and the second prune. */
  function Extended(w: World, e: Event, limits: Limits): (l: Logs)
    requires e.Written?
    ensures l.stream.Some?
  {
    Extend(CreateStream(w.logs, e.date, e.now, e.bytes, e.opening, limits), Next(w, e), e.now)
  }

  lemma ExtendedIsSound(w: World, e: Event, date: nat, before: nat, limits: Limits)
    requires e.Written? && Inv(w, date, before, limits) && date <= e.date && before < e.now
    ensures Inv(World(Extended(w, e, limits), w.written + [Next(w, e)]), e.date, e.now, limits)
    ensures Contents(Extended(w, e, limits).files) ==
            Contents(CreateStream(w.logs, e.date, e.now, e.bytes, e.opening, limits).files) + [Next(w, e)]
  {
    var l := CreateStream(w.logs, e.date, e.now, e.bytes, e.opening, limits);
    CreateStreamIsSound(w, e, date, before, limits);
    ExtendIsSound(l, Next(w, e), e.date, e.now, limits);
    OneMoreRecord(Contents(l.files), w.written, Next(w, e));
  }

  lemma WriteKeepsInv(w: World, e: Event, date: nat, before: nat, limits: Limits)
    requires e.Written? && Inv(w, date, before, limits) && date <= e.date && before < e.now
    ensures Inv(Step(w, e, limits), e.date, e.now, limits)
  {
    var longer := Extended(w, e, limits);
    ExtendedIsSound(w, e, date, before, limits);
    if longer.streamSize >= limits.file {
      PruneKeepsSound(longer, e.full, w.written + [Next(w, e)], e.date, e.now, limits);
      FilledLast(longer.files);
      FilledLast(PruneOpen(longer, e.full, limits).files);
    }
  }

  // ----- All runs -----

  /**
   Over every run of writes and restarts under an advancing clock, whatever deletions fail: the files stay
   in the order of their names, each within its limit unless it holds one oversized record, the open
   stream is the last of them, and together they hold the records written, in order, with some left out.
   */
  lemma {:induction false} EveryRunKeepsInv(w: World, es: seq<Event>, date: nat, now: nat, limits: Limits) returns (d: nat, t: nat)
    requires Inv(w, date, now, limits) && ClockAdvances(es, date, now)
    ensures Inv(Run(w, es, limits), d, t, limits)
    decreases |es|
  {
    d, t := date, now;
    if es != [] {
      match es[0] {
        case Written(_, day, time, _, _) =>
          WriteKeepsInv(w, es[0], date, now, limits);
          d, t := EveryRunKeepsInv(Step(w, es[0], limits), es[1..], day, time, limits);
        case Restarted =>
          d, t := EveryRunKeepsInv(Step(w, es[0], limits), es[1..], date, now, limits);
      }
    }
  }

  /** The same from the empty directory. */
  lemma LogsKeepOrder(es: seq<Event>, limits: Limits)
    requires ClockAdvances(es, 0, 0)
    ensures var w := Run(EMPTY, es, limits);
            Bounded(w.logs.files, limits) && StreamIsLast(w.logs) && SomeLeftOut(Contents(w.logs.files), w.written)
  {
    var d, t := EveryRunKeepsInv(EMPTY, es, 0, 0, limits);
  }

  /** Some prune of the step leaves a hole. */
  predicate StepLeavesHole(w: World, e: Event, limits: Limits)
  {
    e.Written? &&
    (|| (&& !KeepsStream(w.logs, e.date, e.bytes, limits)
         && PruneLeavesHole(Moved(w.logs, e.date, e.now, e.bytes, limits), e.opening, limits))
     || (Extended(w, e, limits).streamSize >= limits.file && PruneLeavesHole(Extended(w, e, limits), e.full, limits)))
  }

  predicate HoldsSuffix(w: World) { IsSuffix(Contents(w.logs.files), w.written) }

  /** After each of the two prunes of the step the files hold a suffix of what has been written. */
  predicate StepHoldsSuffix(w: World, e: Event, limits: Limits)
  {
    e.Written? ==>
      && HoldsSuffix(World(Extended(w, e, limits), w.written + [Next(w, e)]))
      && HoldsSuffix(Step(w, e, limits))
  }

  lemma SuffixGrows(part: seq<Record>, whole: seq<Record>, r: Record)
    ensures IsSuffix(part + [r], whole + [r]) <==> IsSuffix(part, whole)
  {
    if IsSuffix(part + [r], whole + [r]) {
      var at := |whole| - |part|;
      assert (whole + [r])[at..][..|part|] == part;
      assert whole[at..] == (whole + [r])[at..][..|part|];
    }
  }

  lemma FirstPruneIsExact(w: World, e: Event, date: nat, before: nat, limits: Limits)
    requires e.Written? && Inv(w, date, before, limits) && HoldsSuffix(w) && date <= e.date && before < e.now
    ensures HoldsSuffix(World(Extended(w, e, limits), w.written + [Next(w, e)])) <==>
            (KeepsStream(w.logs, e.date, e.bytes, limits) ||
             !PruneLeavesHole(Moved(w.logs, e.date, e.now, e.bytes, limits), e.opening, limits))
  {
    var l := CreateStream(w.logs, e.date, e.now, e.bytes, e.opening, limits);
    ExtendedIsSound(w, e, date, before, limits);
    SuffixGrows(Contents(l.files), w.written, Next(w, e));
    if !KeepsStream(w.logs, e.date, e.bytes, limits) {
      LaterDate(w.logs.files, date, e.date, before);
      MovedIsSound(w.logs, e.date, before, e.now, e.bytes, limits);
      PruneKeepsSuffixExactly(Moved(w.logs, e.date, e.now, e.bytes, limits), e.opening, w.written, e.date, e.now, limits);
    }
  }

  lemma SecondPruneIsExact(w: World, e: Event, date: nat, before: nat, limits: Limits)
    requires e.Written? && Inv(w, date, before, limits) && date <= e.date && before < e.now
    requires HoldsSuffix(World(Extended(w, e, limits), w.written + [Next(w, e)]))
    ensures HoldsSuffix(Step(w, e, limits)) <==>
            !(Extended(w, e, limits).streamSize >= limits.file && PruneLeavesHole(Extended(w, e, limits), e.full, limits))
  {
    var longer := Extended(w, e, limits);
    ExtendedIsSound(w, e, date, before, limits);
    if longer.streamSize >= limits.file {
      FilledLast(longer.files);
      PruneKeepsSuffixExactly(longer, e.full, w.written + [Next(w, e)], e.date, e.now, limits);
    }
  }

  lemma StepIsExact(w: World, e: Event, date: nat, before: nat, limits: Limits)
    requires Inv(w, date, before, limits) && HoldsSuffix(w) && (e.Written? ==> date <= e.date && before < e.now)
    ensures StepHoldsSuffix(w, e, limits) <==> !StepLeavesHole(w, e, limits)
    ensures StepHoldsSuffix(w, e, limits) ==> HoldsSuffix(Step(w, e, limits))
  {
    if e.Written? {
      FirstPruneIsExact(w, e, date, before, limits);
      if HoldsSuffix(World(Extended(w, e, limits), w.written + [Next(w, e)])) {
        SecondPruneIsExact(w, e, date, before, limits);
      }
    }
  }

  /** The files hold a suffix of what has been written after every prune of the run. */
  predicate HoldsThroughout(w: World, es: seq<Event>, limits: Limits)
    decreases |es|
  {
    es == [] || (StepHoldsSuffix(w, es[0], limits) && HoldsThroughout(Step(w, es[0], limits), es[1..], limits))
  }

  /** Some prune of the run leaves a hole. */
  predicate LeavesHoleSomewhere(w: World, es: seq<Event>, limits: Limits)
    decreases |es|
  {
    es != [] && (StepLeavesHole(w, es[0], limits) || LeavesHoleSomewhere(Step(w, es[0], limits), es[1..], limits))
  }

  lemma {:induction false} SuffixIsKeptExactly(w: World, es: seq<Event>, date: nat, now: nat, limits: Limits)
    requires Inv(w, date, now, limits) && HoldsSuffix(w) && ClockAdvances(es, date, now)
    ensures HoldsThroughout(w, es, limits) <==> !LeavesHoleSomewhere(w, es, limits)
    decreases |es|
  {
    if es != [] {
      StepIsExact(w, es[0], date, now, limits);
      if StepHoldsSuffix(w, es[0], limits) {
        match es[0] {
          case Written(_, day, time, _, _) =>
            WriteKeepsInv(w, es[0], date, now, limits);
            SuffixIsKeptExactly(Step(w, es[0], limits), es[1..], day, time, limits);
          case Restarted =>
            SuffixIsKeptExactly(Step(w, es[0], limits), es[1..], date, now, limits);
        }
      }
    }
  }

  /**
   From the empty directory, whatever deletions fail: the files hold a suffix of everything written
   throughout a run if and only if no prune deletes a file after it had to skip an older one.
   */
  lemma LogsHoldASuffixExactly(es: seq<Event>, limits: Limits)
    requires ClockAdvances(es, 0, 0)
    ensures HoldsThroughout(EMPTY, es, limits) <==> !LeavesHoleSomewhere(EMPTY, es, limits)
  {
    SuffixIsKeptExactly(EMPTY, es, 0, 0, limits);
  }

  /** No deletion fails in the run. */
  predicate NoFailures(es: seq<Event>)
  {
    es == [] || ((es[0].Written? ==> es[0].opening == {} && es[0].full == {}) && NoFailures(es[1..]))
  }

  /** Runs in which every deletion succeeds hold a suffix throughout. */
  lemma {:induction false} NoFailuresSuffice(w: World, es: seq<Event>, limits: Limits)
    requires NoFailures(es)
    ensures !LeavesHoleSomewhere(w, es, limits)
    decreases |es|
  {
    if es != [] {
      if es[0].Written? {
        var (moved, longer) := (Moved(w.logs, es[0].date, es[0].now, es[0].bytes, limits), Extended(w, es[0], limits));
        NoFailuresNoHole(moved.files, TotalSize(moved.files), moved.stream.value, limits.total);
        NoFailuresNoHole(longer.files, TotalSize(longer.files), longer.stream.value, limits.total);
      }
      NoFailuresSuffice(Step(w, es[0], limits), es[1..], limits);
    }
  }

  // ----- A run that leaves a hole -----

  lemma NothingToPrune(l: Logs, stuck: set<Name>, date: nat, now: nat, limits: Limits)
    requires InOrder(l.files, date, now) && l.stream.Some? && TotalSize(l.files) <= limits.total
    ensures PruneOpen(l, stuck, limits) == l
  {
    PruneIsWithout(l.files, l.stream.value, stuck, date, now, limits);
    WithoutNothing(l.files);
  }

  /** A write that does not fit behind the open stream goes to a file with the next index. */
  lemma WriteOpensNextFile(w: World, e: Event, date: nat, before: nat, limits: Limits)
    requires e.Written? && Inv(w, date, before, limits) && date <= e.date && before < e.now
    requires w.logs.stream.Some? && w.logs.stream.value.date == e.date && w.logs.streamSize + e.bytes > limits.file
    requires TotalSize(w.logs.files) <= limits.total
    ensures var name := Name(e.date, w.logs.stream.value.index + 1);
            Extended(w, e, limits) == Logs(w.logs.files + [LogFile(name, [Next(w, e)], e.now)], Some(name), e.bytes)
  {
    var files := w.logs.files;
    var name := Name(e.date, w.logs.stream.value.index + 1);
    var moved := Moved(w.logs, e.date, e.now, e.bytes, limits);
    LaterDate(files, date, e.date, before);
    LatestIsLast(files, e.date, before);
    AfterLastIsNew(files, name, e.date, before);
    NewNameIsMissing(files, name);
    assert moved == Logs(files + [LogFile(name, [], e.now)], Some(name), 0);
    MovedIsSound(w.logs, e.date, before, e.now, e.bytes, limits);
    TotalConcat(files, [LogFile(name, [], e.now)]);
    assert TotalSize([LogFile(name, [], e.now)]) == 0 + TotalSize([]);
    NothingToPrune(moved, e.opening, e.date, e.now, limits);
    AppendGoesLast(moved.files, Next(w, e), e.date, e.now);
    assert moved.files[..|files|] == files;
    assert Longer(LogFile(name, [], e.now), Next(w, e), e.now) == LogFile(name, [Next(w, e)], e.now);
  }

  lemma {:induction false} TotalConcat(a: seq<LogFile>, b: seq<LogFile>)
    ensures TotalSize(a + b) == TotalSize(a) + TotalSize(b)
  {
    if a == [] {
      assert a + b == b;
    } else {
      assert (a + b)[1..] == a[1..] + b;
      TotalConcat(a[1..], b);
    }
  }

  /** A record of this size fills a file, and there is room for two of them and not for three. */
  predicate RoomForTwo(size: nat, limits: Limits)
  {
    0 < limits.file <= size && 2 * size <= limits.total < 3 * size
  }

  /** The file of the write with this number when every record fills a file. */
  function Single(i: nat, size: nat): LogFile { LogFile(Name(0, i), [Record(i, size)], i + 1) }

  function FullWrite(i: nat, size: nat, full: set<Name>): Event { Written(size, 0, i + 1, {}, full) }

  lemma SizeOfSingle(i: nat, size: nat)
    ensures Size(Single(i, size)) == size && TotalSize([Single(i, size)]) == size
  {
    var rs := Single(i, size).records;
    assert rs[..0] == [] && Bytes(rs) == Bytes(rs[..0]) + rs[0].bytes;
    assert [Single(i, size)][1..] == [];
  }

  lemma TotalOfSingles(size: nat)
    ensures TotalSize([Single(0, size), Single(1, size)]) == 2 * size
    ensures TotalSize([Single(0, size), Single(1, size), Single(2, size)]) == 3 * size
  {
    SizeOfSingle(0, size);
    SizeOfSingle(1, size);
    SizeOfSingle(2, size);
    TotalConcat([Single(0, size)], [Single(1, size)]);
    assert [Single(0, size)] + [Single(1, size)] == [Single(0, size), Single(1, size)];
    TotalConcat([Single(0, size), Single(1, size)], [Single(2, size)]);
    assert [Single(0, size), Single(1, size)] + [Single(2, size)] == [Single(0, size), Single(1, size), Single(2, size)];
  }

  predicate AfterFirst(w: World, size: nat, limits: Limits)
  {
    && Inv(w, 0, 1, limits) && w.written == [Record(0, size)]
    && w.logs == Logs([Single(0, size)], Some(Name(0, 0)), size)
  }

  predicate AfterSecond(w: World, size: nat, limits: Limits)
  {
    && Inv(w, 0, 2, limits) && |w.written| == 2
    && w.logs == Logs([Single(0, size), Single(1, size)], Some(Name(0, 1)), size)
  }

  lemma EmptyKeepsInv(limits: Limits)
    ensures Inv(EMPTY, 0, 0, limits)
  {
  }

  lemma FirstOpens(now: nat, size: nat, limits: Limits)
    ensures Moved(EMPTY.logs, 0, now, size, limits) == Logs([LogFile(Name(0, 0), [], now)], Some(Name(0, 0)), 0)
  {
    assert [] + [LogFile(Name(0, 0), [], now)] == [LogFile(Name(0, 0), [], now)];
  }

  lemma FirstWrite(e: Event, size: nat, limits: Limits)
    requires RoomForTwo(size, limits) && e == FullWrite(0, size, {})
    ensures AfterFirst(Step(EMPTY, e, limits), size, limits)
  {
    var (empty, single) := (LogFile(Name(0, 0), [], 1), Single(0, size));
    EmptyKeepsInv(limits);
    WriteKeepsInv(EMPTY, e, 0, 0, limits);
    FirstOpens(1, size, limits);
    assert [empty][1..] == [];
    assert TotalSize([empty]) == 0 + TotalSize([]) && InOrder([empty], 0, 1);
    NothingToPrune(Logs([empty], Some(Name(0, 0)), 0), {}, 0, 1, limits);
    assert [] + [Record(0, size)] == [Record(0, size)];
    assert Append([empty], Name(0, 0), Record(0, size), 1) == [single] + [empty][1..] == [single];
    SizeOfSingle(0, size);
    assert [single][1..] == [] && InOrder([single], 0, 1);
    NothingToPrune(Logs([single], Some(Name(0, 0)), size), {}, 0, 1, limits);
  }

  lemma SecondWrite(w: World, e: Event, size: nat, limits: Limits)
    requires RoomForTwo(size, limits) && AfterFirst(w, size, limits) && e == FullWrite(1, size, {})
    ensures AfterSecond(Step(w, e, limits), size, limits)
  {
    WriteKeepsInv(w, e, 0, 1, limits);
    SizeOfSingle(0, size);
    TotalOfSingles(size);
    WriteOpensNextFile(w, e, 0, 1, limits);
    ExtendedIsSound(w, e, 0, 1, limits);
    assert [Single(0, size)] + [Single(1, size)] == [Single(0, size), Single(1, size)];
    NothingToPrune(Extended(w, e, limits), {}, 0, 2, limits);
  }

  lemma HoleOfThree(f: LogFile, g: LogFile, h: LogFile, total: nat, limit: nat)
    requires f.name != g.name && g.name != h.name && f.name != h.name && total > limit
    ensures LeavesHole([f, g, h], total, h.name, {f.name}, limit, false)
  {
    assert [f, g, h][1..] == [g, h];
    assert LeavesHole([g, h], total, h.name, {f.name}, limit, true);
  }

  lemma FullPruneCounts(w: World, e: Event, limits: Limits)
    requires e.Written? && Extended(w, e, limits).streamSize >= limits.file
    requires PruneLeavesHole(Extended(w, e, limits), e.full, limits)
    ensures StepLeavesHole(w, e, limits)
  {
  }

  lemma ThirdWrite(w: World, e: Event, size: nat, limits: Limits)
    requires RoomForTwo(size, limits) && AfterSecond(w, size, limits) && e == FullWrite(2, size, {Name(0, 0)})
    ensures StepLeavesHole(w, e, limits)
  {
    var (f, g, h) := (Single(0, size), Single(1, size), Single(2, size));
    TotalOfSingles(size);
    WriteOpensNextFile(w, e, 0, 2, limits);
    assert [f, g] + [h] == [f, g, h];
    HoleOfThree(f, g, h, 3 * size, limits.total);
    FullPruneCounts(w, e, limits);
  }

  lemma LeavesHoleLater(w: World, e: Event, es: seq<Event>, limits: Limits)
    requires LeavesHoleSomewhere(Step(w, e, limits), es, limits)
    ensures LeavesHoleSomewhere(w, [e] + es, limits)
  {
    assert ([e] + es)[1..] == es;
  }

  lemma ClockOfThree(e0: Event, e1: Event, e2: Event)
    requires e0.Written? && e1.Written? && e2.Written? && e0.date == e1.date == e2.date
    requires 0 < e0.now < e1.now < e2.now
    ensures ClockAdvances([e0] + ([e1] + [e2]), 0, 0)
  {
    assert [e2][1..] == [] && ClockAdvances([e2], e1.date, e1.now);
    assert ([e1] + [e2])[1..] == [e2] && ClockAdvances([e1] + [e2], e0.date, e0.now);
    assert ([e0] + ([e1] + [e2]))[1..] == [e1] + [e2];
  }

  /**
   Whatever the limits: two records of a size that fills a file, then a third one for which there is no room;
   the first file cannot be deleted and the second one is.
   */
  lemma FailedDeletesCanLeaveAHole(size: nat, limits: Limits) returns (es: seq<Event>)
    requires RoomForTwo(size, limits)
    ensures ClockAdvances(es, 0, 0) && !HoldsThroughout(EMPTY, es, limits)
  {
    var (e0, e1, e2) := (FullWrite(0, size, {}), FullWrite(1, size, {}), FullWrite(2, size, {Name(0, 0)}));
    es := [e0] + ([e1] + [e2]);
    ClockOfThree(e0, e1, e2);
    var w1 := Step(EMPTY, e0, limits);
    FirstWrite(e0, size, limits);
    SecondWrite(w1, e1, size, limits);
    ThirdWrite(Step(w1, e1, limits), e2, size, limits);
    LeavesHoleLater(w1, e1, [e2], limits);
    LeavesHoleLater(EMPTY, e0, [e1] + [e2], limits);
    LogsHoldASuffixExactly(es, limits);
  }
}
