/**
 Rotation and pruning of the backend's log files.
 The log directory is a list of files, in the order of their names (date, then index); sizes on disk
 are current when they are read, and every change of a file takes a new, later modification time.
 */
module LogRotation {
  import opened Results

  datatype Limits = Limits(file: nat, total: nat)

  /** `backend-<date>.log` for index 0, `backend-<date>-<index>.log` for the others. */
  datatype Name = Name(date: nat, index: nat)

  predicate Before(a: Name, b: Name) { a.date < b.date || (a.date == b.date && a.index < b.index) }

  datatype Record = Record(id: nat, bytes: nat)

  datatype LogFile = LogFile(name: Name, records: seq<Record>, modifiedAt: nat)

  function Bytes(records: seq<Record>): nat
  {
    if records == [] then 0 else Bytes(records[..|records| - 1]) + records[|records| - 1].bytes
  }

  function Size(f: LogFile): nat { Bytes(f.records) }

  function TotalSize(files: seq<LogFile>): nat
  {
    if files == [] then 0 else Size(files[0]) + TotalSize(files[1..])
  }

  /** Everything in the directory, file after file. */
  function Contents(files: seq<LogFile>): seq<Record>
  {
    if files == [] then [] else files[0].records + Contents(files[1..])
  }

  // ----- Choosing the file to write -----

  /** The file of a date with the highest index. */
  function Latest(files: seq<LogFile>, date: nat): Option<LogFile>
  {
    if files == [] then None
    else
      var rest := Latest(files[1..], date);
      if files[0].name.date == date && (rest.None? || files[0].name.index > rest.value.name.index)
      then Some(files[0]) else rest
  }

  function Resolve(files: seq<LogFile>, date: nat, bytes: nat, excluded: Option<Name>, limits: Limits): Name
  {
    var latest := Latest(files, date);
    if latest.Some? && Some(latest.value.name) != excluded && Size(latest.value) + bytes <= limits.file
    then latest.value.name
    else
      var a := if latest.Some? then latest.value.name.index else -1;
      var b := if excluded.Some? && excluded.value.date == date then excluded.value.index else -1;
      Name(date, (if a < b then b else a) + 1)
  }

  // ----- Pruning -----

  /** Stable sorting by modification time. */
  function Insert(f: LogFile, sorted: seq<LogFile>): seq<LogFile>
  {
    if sorted == [] || f.modifiedAt <= sorted[0].modifiedAt then [f] + sorted
    else [sorted[0]] + Insert(f, sorted[1..])
  }

  function ByTime(files: seq<LogFile>): seq<LogFile>
  {
    if files == [] then [] else Insert(files[0], ByTime(files[1..]))
  }

  /** The names that pruning deletes from a list, oldest first; deleting a name in `stuck` fails. */
  function Deleted(entries: seq<LogFile>, total: int, active: Name, stuck: set<Name>, limit: nat): set<Name>
  {
    if entries == [] || total <= limit then {}
    else if entries[0].name == active || entries[0].name in stuck then Deleted(entries[1..], total, active, stuck, limit)
    else {entries[0].name} + Deleted(entries[1..], total - Size(entries[0]), active, stuck, limit)
  }

  function Without(files: seq<LogFile>, names: set<Name>): seq<LogFile>
  {
    if files == [] then []
    else (if files[0].name in names then [] else [files[0]]) + Without(files[1..], names)
  }

  function Prune(files: seq<LogFile>, active: Name, stuck: set<Name>, limits: Limits): seq<LogFile>
  {
    Without(files, Deleted(ByTime(files), TotalSize(files), active, stuck, limits.total))
  }

  // ----- Writing -----

  /** The directory and the open stream with the size the logger has counted for it. */
  datatype Logs = Logs(files: seq<LogFile>, stream: Option<Name>, streamSize: nat)

  predicate HasFile(files: seq<LogFile>, name: Name) { exists i :: 0 <= i < |files| && files[i].name == name }

  /** Opening for append creates a missing file, which comes last: the names in use only grow. */
  function Open(files: seq<LogFile>, name: Name, now: nat): seq<LogFile>
  {
    if HasFile(files, name) then files else files + [LogFile(name, [], now)]
  }

  function SizeOf(files: seq<LogFile>, name: Name): nat
  {
    if files == [] then 0 else if files[0].name == name then Size(files[0]) else SizeOf(files[1..], name)
  }

  function Append(files: seq<LogFile>, name: Name, r: Record, now: nat): seq<LogFile>
  {
    if files == [] then []
    else if files[0].name == name then [files[0].(records := files[0].records + [r], modifiedAt := now)] + files[1..]
    else [files[0]] + Append(files[1..], name, r, now)
  }

  predicate KeepsStream(l: Logs, date: nat, bytes: nat, limits: Limits)
  {
    l.stream.Some? && l.stream.value.date == date && l.streamSize + bytes <= limits.file
  }

  /** `createLogStream`: keep the stream or move to another file and prune. */
  function CreateStream(l: Logs, date: nat, now: nat, bytes: nat, stuck: set<Name>, limits: Limits): (l': Logs)
    ensures l'.stream.Some?
  {
    if KeepsStream(l, date, bytes, limits) then l else PruneOpen(Moved(l, date, now, bytes, limits), stuck, limits)
  }

  /** The stream on the file that `resolveWritableLogFile` chooses. */
  function Moved(l: Logs, date: nat, now: nat, bytes: nat, limits: Limits): (l': Logs)
    ensures l'.stream.Some?
  {
    var name := Resolve(l.files, date, bytes, l.stream, limits);
    Logs(Open(l.files, name, now), Some(name), SizeOf(l.files, name))
  }

  /** The record goes to the open stream. */
  function Extend(l: Logs, r: Record, now: nat): (l': Logs)
    requires l.stream.Some?
    ensures l'.stream == l.stream
  {
    Logs(Append(l.files, l.stream.value, r, now), l.stream, l.streamSize + r.bytes)
  }

  function PruneOpen(l: Logs, stuck: set<Name>, limits: Limits): Logs
    requires l.stream.Some?
  {
    l.(files := Prune(l.files, l.stream.value, stuck, limits))
  }

  /** `writeRecord`; `opening` and `full` are the files that its two prunes cannot delete. */
  function Write(l: Logs, r: Record, date: nat, now: nat, opening: set<Name>, full: set<Name>, limits: Limits): Logs
  {
    var longer := Extend(CreateStream(l, date, now, r.bytes, opening, limits), r, now);
    if longer.streamSize >= limits.file then PruneOpen(longer, full, limits) else longer
  }

  /** A new process, or a stream that failed: no stream is open. */
  function Restart(l: Logs): Logs { Logs(l.files, None, 0) }

  class Logger {
    const limits: Limits
    var files: seq<LogFile>
    var stream: Option<Name>
    var streamSizeBytes: nat

    constructor (limits: Limits, files: seq<LogFile>)
      ensures this.limits == limits && View() == Logs(files, None, 0)
    {
      this.limits := limits;
      this.files, stream, streamSizeBytes := files, None, 0;
    }

    function View(): Logs
      reads this
    {
      Logs(files, stream, streamSizeBytes)
    }

    method PruneLogs(activePath: Name, stuck: set<Name>)
      modifies this`files
      ensures files == Prune(old(files), activePath, stuck, limits)
    {
      var entries := ByTime(files);
      var totalBytes: int := TotalSize(files);
      ghost var all := Deleted(entries, totalBytes, activePath, stuck, limits.total);
      ghost var gone: set<Name> := {};
      WithoutNothing(files);
      for i := 0 to |entries|
        invariant files == Without(old(files), gone)
        invariant all == gone + Deleted(entries[i..], totalBytes, activePath, stuck, limits.total)
      {
        assert entries[i..][1..] == entries[i + 1..];
        if totalBytes <= limits.total { break; }
        var entry := entries[i];
        if entry.name == activePath { continue; }
        if entry.name in stuck { continue; }
        WithoutTwice(old(files), gone, {entry.name});
        files := Without(files, {entry.name});
        gone := gone + {entry.name};
        totalBytes := totalBytes - Size(entry);
      }
      assert all == gone;
    }

    method CreateLogStream(nextRecordBytes: nat, date: nat, now: nat, stuck: set<Name>) returns (path: Name)
      modifies this
      ensures View() == CreateStream(old(View()), date, now, nextRecordBytes, stuck, limits)
      ensures stream == Some(path)
    {
      if stream.Some? && stream.value.date == date && streamSizeBytes + nextRecordBytes <= limits.file {
        return stream.value;
      }
      path := Resolve(files, date, nextRecordBytes, stream, limits);
      streamSizeBytes := SizeOf(files, path);
      files := Open(files, path, now);
      stream := Some(path);
      PruneLogs(path, stuck);
    }

    /** What the error handler of the stream does, and what a new process begins with. */
    method DropStream()
      modifies this`stream, this`streamSizeBytes
      ensures View() == Restart(old(View())) && stream == None && streamSizeBytes == 0
    {
      stream, streamSizeBytes := None, 0;
    }

    method WriteRecord(r: Record, date: nat, now: nat, opening: set<Name>, full: set<Name>)
      modifies this
      ensures View() == Write(old(View()), r, date, now, opening, full, limits)
    {
      var activePath := CreateLogStream(r.bytes, date, now, opening);
      files := Append(files, activePath, r, now);
      streamSizeBytes := streamSizeBytes + r.bytes;
      if streamSizeBytes >= limits.file { PruneLogs(activePath, full); }
    }
  }

  // ----- Which files are deleted -----

  predicate OldestFirst(files: seq<LogFile>) { forall i, j :: 0 <= i < j < |files| ==> files[i].modifiedAt <= files[j].modifiedAt }

  /** The files of one modification time, in their order. */
  function OfTime(files: seq<LogFile>, t: nat): seq<LogFile>
  {
    if files == [] then [] else (if files[0].modifiedAt == t then [files[0]] else []) + OfTime(files[1..], t)
  }

  lemma {:induction false} InsertAdds(f: LogFile, sorted: seq<LogFile>)
    ensures multiset(Insert(f, sorted)) == multiset(sorted) + multiset{f}
  {
    if sorted != [] && f.modifiedAt > sorted[0].modifiedAt {
      InsertAdds(f, sorted[1..]);
      assert sorted == [sorted[0]] + sorted[1..];
    }
  }

  lemma {:induction false} InsertSorts(f: LogFile, sorted: seq<LogFile>)
    requires OldestFirst(sorted)
    ensures OldestFirst(Insert(f, sorted))
    ensures sorted != [] && f.modifiedAt > sorted[0].modifiedAt ==> Insert(f, sorted)[0] == sorted[0]
    ensures sorted == [] || f.modifiedAt <= sorted[0].modifiedAt ==> Insert(f, sorted)[0] == f
  {
    if sorted != [] && f.modifiedAt > sorted[0].modifiedAt {
      InsertSorts(f, sorted[1..]);
      var rest := Insert(f, sorted[1..]);
      assert sorted[0].modifiedAt <= rest[0].modifiedAt;
    }
  }

  lemma {:induction false} InsertIsStable(f: LogFile, sorted: seq<LogFile>, t: nat)
    ensures OfTime(Insert(f, sorted), t) == (if f.modifiedAt == t then [f] else []) + OfTime(sorted, t)
  {
    if sorted == [] || f.modifiedAt <= sorted[0].modifiedAt {
      assert ([f] + sorted)[1..] == sorted;
    } else {
      InsertIsStable(f, sorted[1..], t);
      var rest := Insert(f, sorted[1..]);
      assert ([sorted[0]] + rest)[1..] == rest;
      assert [] + OfTime(sorted[1..], t) == OfTime(sorted[1..], t) && [] + OfTime(rest, t) == OfTime(rest, t);
    }
  }

  lemma {:induction false} ListingIsSorted(files: seq<LogFile>)
    ensures OldestFirst(ByTime(files))
  {
    if files != [] {
      ListingIsSorted(files[1..]);
      InsertSorts(files[0], ByTime(files[1..]));
    }
  }

  lemma {:induction false} ListingHasTheFiles(files: seq<LogFile>)
    ensures multiset(ByTime(files)) == multiset(files)
  {
    if files != [] {
      ListingHasTheFiles(files[1..]);
      InsertAdds(files[0], ByTime(files[1..]));
      assert files == [files[0]] + files[1..];
    }
  }

  lemma {:induction false} ListingIsStable(files: seq<LogFile>, t: nat)
    ensures OfTime(ByTime(files), t) == OfTime(files, t)
  {
    if files != [] {
      ListingIsStable(files[1..], t);
      InsertIsStable(files[0], ByTime(files[1..]), t);
    }
  }

  /** The listing is sorted by modification time, has the same files, and files of the same time stay in order. */
  lemma ListedOldestFirst(files: seq<LogFile>)
    ensures OldestFirst(ByTime(files)) && multiset(ByTime(files)) == multiset(files)
    ensures forall t :: OfTime(ByTime(files), t) == OfTime(files, t)
  {
    ListingIsSorted(files);
    ListingHasTheFiles(files);
    forall t ensures OfTime(ByTime(files), t) == OfTime(files, t) { ListingIsStable(files, t); }
  }

  /** What is deleted stands in front of everything that could have been and was not. */
  lemma {:induction false} DeletedComeFirst(entries: seq<LogFile>, total: int, active: Name, stuck: set<Name>, limit: nat, i: nat, j: nat)
    requires i < |entries| && j < |entries| && forall k, l :: 0 <= k < l < |entries| ==> entries[k].name != entries[l].name
    requires entries[i].name in Deleted(entries, total, active, stuck, limit)
    requires entries[j].name !in Deleted(entries, total, active, stuck, limit) && entries[j].name != active && entries[j].name !in stuck
    ensures i < j
  {
    if j > 0 && i > 0 {
      var skipped := entries[0].name == active || entries[0].name in stuck;
      DeletedComeFirst(entries[1..], if skipped then total else total - Size(entries[0]), active, stuck, limit, i - 1, j - 1);
    }
  }

  lemma {:induction false} InWithout(files: seq<LogFile>, names: set<Name>, f: LogFile)
    ensures f in Without(files, names) <==> f in files && f.name !in names
  {
    if files != [] { InWithout(files[1..], names, f); }
  }

  /** Whatever the order of the directory: of two files that a prune could delete, it deletes the older one first. */
  lemma PruneTakesTheOldest(files: seq<LogFile>, active: Name, stuck: set<Name>, limits: Limits, gone: LogFile, kept: LogFile)
    requires forall i, j :: 0 <= i < j < |files| ==> files[i].name != files[j].name
    requires gone in files && gone !in Prune(files, active, stuck, limits)
    requires kept in files && kept in Prune(files, active, stuck, limits) && kept.name != active && kept.name !in stuck
    ensures gone.modifiedAt <= kept.modifiedAt && gone.name != active && gone.name !in stuck
  {
    var entries := ByTime(files);
    var deleted := Deleted(entries, TotalSize(files), active, stuck, limits.total);
    InWithout(files, deleted, gone);
    InWithout(files, deleted, kept);
    ListedOldestFirst(files);
    NamesStayUnique(files, entries);
    assert gone in multiset(files) && kept in multiset(files);
    assert gone in entries && kept in entries;
    var i :| 0 <= i < |entries| && entries[i] == gone;
    var j :| 0 <= j < |entries| && entries[j] == kept;
    DeletedComeFirst(entries, TotalSize(files), active, stuck, limits.total, i, j);
    NeverDeleted(entries, TotalSize(files), active, stuck, limits.total, gone.name);
  }

  lemma {:induction false} NeverDeleted(entries: seq<LogFile>, total: int, active: Name, stuck: set<Name>, limit: nat, name: Name)
    requires name in Deleted(entries, total, active, stuck, limit)
    ensures name != active && name !in stuck
  {
    if entries[0].name == active || entries[0].name in stuck {
      NeverDeleted(entries[1..], total, active, stuck, limit, name);
    } else if name != entries[0].name {
      NeverDeleted(entries[1..], total - Size(entries[0]), active, stuck, limit, name);
    }
  }

  /** Rearranging files keeps their names apart. */
  lemma NamesStayUnique(files: seq<LogFile>, entries: seq<LogFile>)
    requires multiset(entries) == multiset(files)
    requires forall i, j :: 0 <= i < j < |files| ==> files[i].name != files[j].name
    ensures forall i, j :: 0 <= i < j < |entries| ==> entries[i].name != entries[j].name
  {
    forall i, j | 0 <= i < j < |entries| ensures entries[i].name != entries[j].name {
      assert entries[i] in multiset(files) && entries[j] in multiset(files);
      var k :| 0 <= k < |files| && files[k] == entries[i];
      var l :| 0 <= l < |files| && files[l] == entries[j];
      if entries[i] == entries[j] {
        TwoPlaces(entries, i, j);
        OnePlace(files, k);
      }
    }
  }

  lemma TwoPlaces(xs: seq<LogFile>, i: nat, j: nat)
    requires i < j < |xs| && xs[i] == xs[j]
    ensures multiset(xs)[xs[i]] >= 2
  {
    assert xs == xs[..j] + [xs[j]] + xs[j + 1..];
    assert xs[..j][i] == xs[i] && xs[i] in multiset(xs[..j]);
  }

  lemma OnePlace(xs: seq<LogFile>, k: nat)
    requires k < |xs| && forall i, j :: 0 <= i < j < |xs| ==> xs[i].name != xs[j].name
    ensures multiset(xs)[xs[k]] == 1
  {
    assert xs == xs[..k] + [xs[k]] + xs[k + 1..];
    forall i | 0 <= i < k ensures xs[..k][i] != xs[k] { assert xs[..k][i].name != xs[k].name; }
    var rest := xs[k + 1..];
    forall i | 0 <= i < |rest| ensures rest[i] != xs[k] { assert rest[i] == xs[k + 1 + i]; }
    assert xs[k] !in xs[..k] && xs[k] !in xs[k + 1..];
  }

  // ----- Which file is written -----

  /** The file of the date with the highest index. */
  ghost predicate IsLatest(files: seq<LogFile>, date: nat, f: LogFile)
  {
    && f in files && f.name.date == date
    && forall i :: 0 <= i < |files| && files[i].name.date == date ==> files[i].name.index <= f.name.index
  }

  lemma {:induction false} LatestIsHighest(files: seq<LogFile>, date: nat)
    ensures Latest(files, date).None? ==> forall i :: 0 <= i < |files| ==> files[i].name.date != date
    ensures Latest(files, date).Some? ==> IsLatest(files, date, Latest(files, date).value)
  {
    if files != [] {
      LatestIsHighest(files[1..], date);
      assert forall i :: 0 < i < |files| ==> files[i] == files[1..][i - 1];
    }
  }

  /** An index above those of the date's files and of the file just left, and no higher than needed. */
  ghost predicate IsNextIndex(files: seq<LogFile>, date: nat, excluded: Option<Name>, index: nat)
  {
    && (forall i :: 0 <= i < |files| && files[i].name.date == date ==> files[i].name.index < index)
    && (excluded.Some? && excluded.value.date == date ==> excluded.value.index < index)
    && (index > 0 ==>
          || (exists i :: 0 <= i < |files| && files[i].name == Name(date, index - 1))
          || excluded == Some(Name(date, index - 1)))
  }

  /** The last file of the date is written on if it is not the one just left and has room; otherwise the next index is taken. */
  lemma WritesLastOrNext(files: seq<LogFile>, date: nat, bytes: nat, excluded: Option<Name>, limits: Limits)
    ensures var name := Resolve(files, date, bytes, excluded, limits);
            var latest := Latest(files, date);
            if latest.Some? && excluded != Some(latest.value.name) && Size(latest.value) + bytes <= limits.file
            then IsLatest(files, date, latest.value) && name == latest.value.name
            else name.date == date && IsNextIndex(files, date, excluded, name.index)
  {
    LatestIsHighest(files, date);
    var latest := Latest(files, date);
    if latest.Some? { var i :| 0 <= i < |files| && files[i] == latest.value; }
  }

  lemma {:induction false} WithoutNothing(files: seq<LogFile>)
    ensures Without(files, {}) == files
  {
    if files != [] { WithoutNothing(files[1..]); }
  }

  lemma {:induction false} WithoutTwice(files: seq<LogFile>, a: set<Name>, b: set<Name>)
    ensures Without(Without(files, a), b) == Without(files, a + b)
  {
    if files != [] {
      WithoutTwice(files[1..], a, b);
      var tail := Without(files[1..], a);
      if files[0].name in a {
        assert Without(files, a) == tail;
      } else {
        assert ([files[0]] + tail)[1..] == tail;
      }
    }
  }
}
