/**
 The reader that inspects the directory of a downloaded ZIP archive before anything is extracted
 (sections 4.3.12 and 4.3.16 of PKWARE's APPNOTE).
 File names are checked on their UTF-8 bytes: every character the checks look for is an ASCII one.
 */
module ZipDirectory {
  import opened Bytes

  const MAX_DOWNLOAD_BYTES := 512 * 1024 * 1024
  const MAX_EXTRACTED_BYTES := 2 * 1024 * 1024 * 1024
  const MAX_ARCHIVE_ENTRIES := 50_000
  const MAX_DIRECTORY_BYTES := 64 * 1024 * 1024
  const END_SIGNATURE := 0x06054b50
  const ENTRY_SIGNATURE := 0x02014b50

  // ----- Records -----

  /** Where the record whose fixed part begins at `c` ends: its fixed part gives the lengths of the three others. */
  function RecordEnd(dir: seq<Byte>, c: nat): (n: nat)
    requires c + 46 <= |dir|
    ensures n >= c + 46
  {
    c + 46 + U16LE(dir, c + 28) + U16LE(dir, c + 30) + U16LE(dir, c + 32)
  }

  predicate HeaderAt(dir: seq<Byte>, c: nat) { c + 46 <= |dir| && U32LE(dir, c) == ENTRY_SIGNATURE }

  /** A central directory record: its stored bytes, and what the reader takes from them. */
  datatype Record = Record(bytes: seq<Byte>, flags: nat, size: nat, unixMode: nat, name: seq<Byte>)
  {
    /** The fields are the ones stored. */
    predicate WellFormed()
    {
      && HeaderAt(bytes, 0) && RecordEnd(bytes, 0) == |bytes|
      && flags == U16LE(bytes, 8) && size == U32LE(bytes, 24)
      && unixMode == U32LE(bytes, 38) / 0x1_0000
      && name == bytes[46..46 + U16LE(bytes, 28)]
    }

    /** Neither encrypted nor a ZIP64 record nor nameless. */
    predicate Supported() { flags % 2 == 0 && size != 0xffff_ffff && name != [] }

    /** A harmless path that is no symbolic link. */
    predicate Safe() { SafeName(name) && unixMode / 0x1000 != 0xA }
  }

  /** Back slashes become slashes. */
  function Normalized(name: seq<Byte>): (r: seq<Byte>)
    ensures |r| == |name|
  {
    seq(|name|, i requires 0 <= i < |name| => if name[i] == 92 then 47 else name[i])
  }

  /** `split("/")`; `start` is where the current part began and `i` is the cursor. */
  function Parts(path: seq<Byte>, start: nat := 0, i: nat := 0): seq<seq<Byte>>
    requires start <= i <= |path|
    decreases |path| - i
  {
    if i == |path| then [path[start..]]
    else if path[i] == 47 then [path[start..i]] + Parts(path, i + 1, i + 1)
    else Parts(path, start, i + 1)
  }

  predicate IsLetter(b: Byte) { 65 <= b <= 90 || 97 <= b <= 122 }

  /** No control character, no absolute path, no drive, no part that climbs. */
  predicate SafeName(name: seq<Byte>)
  {
    var path := Normalized(name);
    && (forall i :: 0 <= i < |path| ==> path[i] >= 32 && path[i] != 127)
    && !(|path| >= 1 && path[0] == 47)
    && !(|path| >= 2 && IsLetter(path[0]) && path[1] == 58)
    && [46, 46] !in Parts(path)
  }

  /** Both kinds of records begin with the letters P and K and two bytes that tell them apart. */
  lemma SignaturesInBytes(b: seq<Byte>, at: nat)
    requires at + 4 <= |b|
    ensures U32LE(b, at) == ENTRY_SIGNATURE <==> b[at..at + 4] == [0x50, 0x4b, 1, 2]
    ensures U32LE(b, at) == END_SIGNATURE <==> b[at..at + 4] == [0x50, 0x4b, 5, 6]
  {
    var s := b[at..at + 4];
    assert s[0] == b[at] && s[1] == b[at + 1] && s[2] == b[at + 2] && s[3] == b[at + 3];
    assert U32LE(b, at) == s[0] + 256 * (s[1] as int) + 0x1_0000 * (s[2] as int) + 0x100_0000 * (s[3] as int);
  }

  // ----- Which names are safe -----

  predicate IsSlash(b: Byte) { b == 47 || b == 92 }

  /** Two dots between slashes of either kind, or the ends of the name. */
  predicate ClimbsAt(name: seq<Byte>, i: nat)
  {
    && i + 2 <= |name| && name[i] == 46 && name[i + 1] == 46
    && (i == 0 || IsSlash(name[i - 1])) && (i + 2 == |name| || IsSlash(name[i + 2]))
  }

  /** A name that stays inside the directory into which it is extracted. */
  predicate StaysInside(name: seq<Byte>)
  {
    && (forall i :: 0 <= i < |name| ==> name[i] >= 32 && name[i] != 127)
    && (name == [] || !IsSlash(name[0]))
    && !(|name| >= 2 && (65 <= name[0] <= 90 || 97 <= name[0] <= 122) && name[1] == 58)
    && forall i :: 0 <= i < |name| ==> !ClimbsAt(name, i)
  }

  /** The same for a part of a path that begins at `start`, where only slashes separate. */
  predicate PartClimbsAt(path: seq<Byte>, start: nat, p: nat)
  {
    && start <= p && p + 2 <= |path| && path[p] == 46 && path[p + 1] == 46
    && (p == start || path[p - 1] == 47) && (p + 2 == |path| || path[p + 2] == 47)
  }

  lemma {:induction false} ClimbingParts(path: seq<Byte>, start: nat, i: nat)
    requires start <= i <= |path| && forall k :: start <= k < i ==> path[k] != 47
    ensures [46, 46] in Parts(path, start, i) <==> exists p :: PartClimbsAt(path, start, p)
    decreases |path| - i
  {
    if i == |path| {
      LastPartClimbs(path, start);
    } else if path[i] == 47 {
      ClimbingParts(path, i + 1, i + 1);
      FirstPartClimbs(path, start, i, i + 1);
    } else {
      ClimbingParts(path, start, i + 1);
    }
  }

  lemma LastPartClimbs(path: seq<Byte>, start: nat)
    requires start <= |path| && forall k :: start <= k < |path| ==> path[k] != 47
    ensures path[start..] == [46, 46] <==> exists p :: PartClimbsAt(path, start, p)
  {
    if path[start..] == [46, 46] {
      assert path[start] == path[start..][0] && path[start + 1] == path[start..][1];
      assert PartClimbsAt(path, start, start);
    }
  }

  lemma FirstPartClimbs(path: seq<Byte>, start: nat, i: nat, next: nat)
    requires start <= i < |path| && path[i] == 47 && next == i + 1 && forall k :: start <= k < i ==> path[k] != 47
    ensures (path[start..i] == [46, 46] || exists p :: PartClimbsAt(path, next, p)) <==> exists p :: PartClimbsAt(path, start, p)
  {
    if path[start..i] == [46, 46] {
      assert path[start] == path[start..i][0] && path[start + 1] == path[start..i][1];
      assert PartClimbsAt(path, start, start);
    }
    if p: nat :| PartClimbsAt(path, next, p) { assert PartClimbsAt(path, start, p); }
    if p: nat :| PartClimbsAt(path, start, p) {
      if p > i { assert PartClimbsAt(path, next, p); } else { assert path[start..i] == [46, 46]; }
    }
  }

  lemma NormalizedClimbs(name: seq<Byte>)
    ensures (exists p :: PartClimbsAt(Normalized(name), 0, p)) <==> exists i :: 0 <= i < |name| && ClimbsAt(name, i)
  {
    var path := Normalized(name);
    if p: nat :| PartClimbsAt(path, 0, p) { assert ClimbsAt(name, p); }
    if i :| 0 <= i < |name| && ClimbsAt(name, i) { assert PartClimbsAt(path, 0, i); }
  }

  /** The checks of the source, said of the bytes of the name. */
  lemma SafeNamesStayInside(name: seq<Byte>)
    ensures SafeName(name) <==> StaysInside(name)
  {
    var path := Normalized(name);
    ClimbingParts(path, 0, 0);
    NormalizedClimbs(name);
    if forall i :: 0 <= i < |path| ==> path[i] >= 32 && path[i] != 127 {
      forall i | 0 <= i < |name| ensures name[i] >= 32 && name[i] != 127 { assert path[i] >= 32 && path[i] != 127; }
    }
  }

  function PrintAll(records: seq<Record>): seq<Byte>
  {
    if records == [] then [] else records[0].bytes + PrintAll(records[1..])
  }

  function Total(records: seq<Record>): nat
  {
    if records == [] then 0 else records[0].size + Total(records[1..])
  }

  // ----- Reading one record -----

  /** Integers read inside a window are those read where the window lies. */
  lemma WindowReads(b: seq<Byte>, at: nat, window: seq<Byte>)
    requires at + |window| <= |b| && b[at..at + |window|] == window
    ensures forall k: nat {:trigger U16LE(window, k)} :: k + 2 <= |window| ==> U16LE(window, k) == U16LE(b, at + k)
    ensures forall k: nat {:trigger U32LE(window, k)} :: k + 4 <= |window| ==> U32LE(window, k) == U32LE(b, at + k)
  {
    assert forall k :: 0 <= k < |window| ==> window[k] == b[at + k];
  }

  /** The record whose bytes begin at `c`. */
  function RecordAt(dir: seq<Byte>, c: nat): (r: Record)
    requires HeaderAt(dir, c) && RecordEnd(dir, c) <= |dir|
  {
    Record(dir[c..RecordEnd(dir, c)], U16LE(dir, c + 8), U32LE(dir, c + 24), U32LE(dir, c + 38) / 0x1_0000,
           dir[c + 46..c + 46 + U16LE(dir, c + 28)])
  }

  lemma RecordAtIsWellFormed(dir: seq<Byte>, c: nat)
    requires HeaderAt(dir, c) && RecordEnd(dir, c) <= |dir|
    ensures RecordAt(dir, c).WellFormed()
  {
    var bytes := dir[c..RecordEnd(dir, c)];
    WindowReads(dir, c, bytes);
    assert U32LE(bytes, 0) == U32LE(dir, c);
    SliceOfSlice(dir, c, RecordEnd(dir, c), 46, 46 + U16LE(dir, c + 28));
  }

  lemma SliceOfSlice(b: seq<Byte>, lo: nat, hi: nat, i: nat, j: nat)
    requires lo <= hi <= |b| && i <= j <= hi - lo
    ensures b[lo..hi][i..j] == b[lo + i..lo + j]
  {
    assert forall k :: 0 <= k < j - i ==> b[lo..hi][i..j][k] == b[lo..hi][i + k] == b[lo + i + k];
  }

  /** The bytes of a record, wherever they lie, are read as that record. */
  lemma ReadOfPrint(dir: seq<Byte>, c: nat, r: Record)
    requires r.WellFormed() && c + |r.bytes| <= |dir| && dir[c..c + |r.bytes|] == r.bytes
    ensures HeaderAt(dir, c) && RecordEnd(dir, c) == c + |r.bytes| && RecordAt(dir, c) == r
  {
    WindowReads(dir, c, r.bytes);
    assert U32LE(r.bytes, 0) == U32LE(dir, c);
    SliceOfSlice(dir, c, RecordEnd(dir, c), 46, 46 + U16LE(dir, c + 28));
  }

  // ----- Walking the directory -----

  datatype Verdict = Accepted | Rejected(error: ZipError)

  datatype ZipError = BadSize | NoDirectory | BadDirectory | InvalidEntry | UnsupportedEntry | UnsafeEntry | TooLarge

  /** What the reader finds at an offset: a record it accepts, or the reason why not. */
  datatype Found = Bad(error: ZipError) | Good(record: Record)

  function ReadRecord(dir: seq<Byte>, c: nat): Found
  {
    if !HeaderAt(dir, c) then Bad(InvalidEntry)
    else if RecordEnd(dir, c) > |dir| then Bad(UnsupportedEntry)
    else
      var r := RecordAt(dir, c);
      if !r.Supported() then Bad(UnsupportedEntry)
      else if !r.Safe() then Bad(UnsafeEntry)
      else Good(r)
  }

  function Reader(dir: seq<Byte>): nat -> Found { (c: nat) => ReadRecord(dir, c) }

  /** `remaining` records from `c` on, when `total` bytes have been counted before. */
  function Walk(read: nat -> Found, c: nat, remaining: nat, total: nat): Verdict
    decreases remaining
  {
    if remaining == 0 then Accepted
    else match read(c)
      case Bad(e) => Rejected(e)
      case Good(r) =>
        if total + r.size > MAX_EXTRACTED_BYTES then Rejected(TooLarge)
        else Walk(read, c + |r.bytes|, remaining - 1, total + r.size)
  }

  lemma WalkStep(read: nat -> Found, c: nat, remaining: nat, total: nat)
    requires remaining > 0
    ensures Walk(read, c, remaining, total) == match read(c) {
              case Bad(e) => Rejected(e)
              case Good(r) => if total + r.size > MAX_EXTRACTED_BYTES then Rejected(TooLarge)
                              else Walk(read, c + |r.bytes|, remaining - 1, total + r.size)
            }
  {
  }

  /** The records lie end to end from `c` on. */
  predicate Chain(read: nat -> Found, c: nat, records: seq<Record>)
    decreases records
  {
    records != [] ==> read(c) == Good(records[0]) && Chain(read, c + |records[0].bytes|, records[1..])
  }

  lemma {:induction false} WalkAccepts(read: nat -> Found, c: nat, records: seq<Record>, total: nat)
    requires Chain(read, c, records) && total + Total(records) <= MAX_EXTRACTED_BYTES
    ensures Walk(read, c, |records|, total) == Accepted
    decreases records
  {
    if records != [] { WalkAccepts(read, c + |records[0].bytes|, records[1..], total + records[0].size); }
  }

  /** The records that an accepting walk has read. */
  lemma {:induction false} WalkReads(read: nat -> Found, c: nat, remaining: nat, total: nat) returns (records: seq<Record>)
    requires total <= MAX_EXTRACTED_BYTES && Walk(read, c, remaining, total) == Accepted
    ensures |records| == remaining && Chain(read, c, records) && total + Total(records) <= MAX_EXTRACTED_BYTES
    decreases remaining
  {
    if remaining == 0 {
      records := [];
    } else {
      var r := read(c).record;
      var rest := WalkReads(read, c + |r.bytes|, remaining - 1, total + r.size);
      records := [r] + rest;
      assert records[1..] == rest;
    }
  }

  /** A record of an archive that may be extracted: neither encrypted nor ZIP64, no link, and a name that stays inside. */
  predicate Acceptable(r: Record)
  {
    && r.WellFormed() && r.flags % 2 == 0 && r.size != 0xffff_ffff && r.name != []
    && StaysInside(r.name) && r.unixMode / 0x1000 != 0xA
  }

  /** A record is read at `c` exactly when it is acceptable and its bytes are there. */
  lemma ReadIsExact(dir: seq<Byte>, c: nat, r: Record)
    ensures ReadRecord(dir, c) == Good(r) <==>
            Acceptable(r) && c + |r.bytes| <= |dir| && dir[c..c + |r.bytes|] == r.bytes
  {
    SafeNamesStayInside(r.name);
    if ReadRecord(dir, c) == Good(r) { RecordAtIsWellFormed(dir, c); }
    if Acceptable(r) && c + |r.bytes| <= |dir| && dir[c..c + |r.bytes|] == r.bytes { ReadOfPrint(dir, c, r); }
  }

  /** The bytes of `dir` from `c` on begin with these acceptable records. */
  predicate Holds(dir: seq<Byte>, c: nat, records: seq<Record>)
  {
    && (forall i :: 0 <= i < |records| ==> Acceptable(records[i]))
    && c <= |dir| && PrintAll(records) <= dir[c..]
  }

  lemma {:induction false} ChainIsExact(dir: seq<Byte>, c: nat, records: seq<Record>, read: nat -> Found)
    requires c <= |dir|
    requires forall at: nat {:trigger ReadRecord(dir, at)} :: read(at) == ReadRecord(dir, at)
    ensures Chain(read, c, records) <==> Holds(dir, c, records)
    decreases records
  {
    if records != [] {
      var r := records[0];
      ReadIsExact(dir, c, r);
      HoldsCons(dir, c, records);
      if c + |r.bytes| <= |dir| { ChainIsExact(dir, c + |r.bytes|, records[1..], read); }
    }
  }

  lemma HoldsCons(dir: seq<Byte>, c: nat, records: seq<Record>)
    requires c <= |dir| && records != []
    ensures var r := records[0];
            Holds(dir, c, records) <==>
              && Acceptable(r) && c + |r.bytes| <= |dir| && dir[c..c + |r.bytes|] == r.bytes
              && Holds(dir, c + |r.bytes|, records[1..])
  {
    AllOfCons(records);
    if c + |records[0].bytes| <= |dir| { PrefixSplits(dir, c, records[0].bytes, PrintAll(records[1..])); }
  }

  lemma AllOfCons(records: seq<Record>)
    requires records != []
    ensures (forall i :: 0 <= i < |records| ==> Acceptable(records[i]))
       <==> Acceptable(records[0]) && forall i :: 0 <= i < |records[1..]| ==> Acceptable(records[1..][i])
  {
    assert forall i :: 0 <= i < |records[1..]| ==> records[1..][i] == records[i + 1];
    assert forall i :: 0 < i < |records| ==> records[i] == records[1..][i - 1];
  }

  lemma PrefixSplits(dir: seq<Byte>, c: nat, p: seq<Byte>, q: seq<Byte>)
    requires c + |p| <= |dir|
    ensures p + q <= dir[c..] <==> dir[c..c + |p|] == p && q <= dir[c + |p|..]
  {
    var d := dir[c..];
    assert d[..|p|] == dir[c..c + |p|] && d[|p|..] == dir[c + |p|..];
    assert d == d[..|p|] + d[|p|..];
    if p + q <= d {
      assert p == (p + q)[..|p|] == d[..|p|];
      assert q == (p + q)[|p|..] == d[|p|..|p| + |q|];
    }
  }

  // ----- The end record -----

  /** An end record whose comment reaches exactly to the end of the file. */
  predicate EndRecordAt(file: seq<Byte>, i: nat)
  {
    i + 22 <= |file| && U32LE(file, i) == END_SIGNATURE && i + 22 + U16LE(file, i + 20) == |file|
  }

  ghost predicate LastEndRecordAt(file: seq<Byte>, i: nat)
  {
    EndRecordAt(file, i) && forall j :: i < j ==> !EndRecordAt(file, j)
  }

  /** The search from the back; `from` is the next position to look at. */
  function FindEnd(file: seq<Byte>, from: int): (r: int)
    requires from + 22 <= |file|
    ensures r >= 0 ==> r <= from && EndRecordAt(file, r) && forall j :: r < j <= from ==> !EndRecordAt(file, j)
    ensures r < 0 ==> forall j :: 0 <= j <= from ==> !EndRecordAt(file, j)
  {
    if from < 0 then -1
    else if EndRecordAt(file, from) then from
    else FindEnd(file, from - 1)
  }

  predicate DirectoryInBounds(file: seq<Byte>, end: nat)
    requires end + 22 <= |file|
  {
    && 0 < U16LE(file, end + 10) <= MAX_ARCHIVE_ENTRIES
    && U32LE(file, end + 12) <= MAX_DIRECTORY_BYTES
    && U32LE(file, end + 16) + U32LE(file, end + 12) <= end
  }

  function Directory(file: seq<Byte>, end: nat): seq<Byte>
    requires end + 22 <= |file| && DirectoryInBounds(file, end)
  {
    var offset := U32LE(file, end + 16);
    file[offset..offset + U32LE(file, end + 12)]
  }

  function Inspect(file: seq<Byte>): Verdict
  {
    if |file| < 22 || |file| > MAX_DOWNLOAD_BYTES then Rejected(BadSize)
    else
      var end := FindEnd(file, |file| - 22);
      if end < 0 then Rejected(NoDirectory)
      else DirectoryVerdict(file, end)
  }

  function DirectoryVerdict(file: seq<Byte>, end: nat): Verdict
    requires end + 22 <= |file|
  {
    if !DirectoryInBounds(file, end) then Rejected(BadDirectory)
    else Walk(Reader(Directory(file, end)), 0, U16LE(file, end + 10), 0)
  }

  /** The backward search through the tail of the file. */
  method FindEndRecord(file: seq<Byte>) returns (endOffset: int)
    requires |file| >= 22
    ensures endOffset == FindEnd(file, |file| - 22)
  {
    var tailLength := if 65_557 < |file| then 65_557 else |file|;
    var tailStart := |file| - tailLength;
    var tail := file[tailStart..];
    var offset := tailLength - 22;
    while offset >= 0
      invariant -1 <= offset <= tailLength - 22
      invariant FindEnd(file, |file| - 22) == FindEnd(file, tailStart + offset)
    {
      TailReads(file, tailStart, offset);
      if U32LE(tail, offset) == END_SIGNATURE && offset + 22 + U16LE(tail, offset + 20) == tailLength {
        return tailStart + offset;
      }
      offset := offset - 1;
    }
    NoEndBeforeTail(file, tailStart - 1);
    return -1;
  }

  /** The checks that the loop makes on the record at its cursor, the running total aside. */
  method InspectRecord(directory: seq<Byte>, cursor: nat) returns (found: Found)
    ensures found == ReadRecord(directory, cursor)
  {
    if cursor + 46 > |directory| || U32LE(directory, cursor) != ENTRY_SIGNATURE { return Bad(InvalidEntry); }
    var flags := U16LE(directory, cursor + 8);
    var uncompressedSize := U32LE(directory, cursor + 24);
    var fileNameLength := U16LE(directory, cursor + 28);
    var externalAttributes := U32LE(directory, cursor + 38);
    var nextCursor := cursor + 46 + fileNameLength + U16LE(directory, cursor + 30) + U16LE(directory, cursor + 32);
    if flags % 2 != 0 || uncompressedSize == 0xffff_ffff || fileNameLength == 0 || nextCursor > |directory| {
      return Bad(UnsupportedEntry);
    }
    var entry := directory[cursor + 46..cursor + 46 + fileNameLength];
    var unixMode := externalAttributes / 0x1_0000;
    if !SafeName(entry) || unixMode / 0x1000 == 0xA { return Bad(UnsafeEntry); }
    return Good(Record(directory[cursor..nextCursor], flags, uncompressedSize, unixMode, entry));
  }

  /** The loop over the records of the directory. */
  method InspectRecords(directory: seq<Byte>, entryCount: nat, ghost read: nat -> Found) returns (v: Verdict)
    requires forall c: nat {:trigger ReadRecord(directory, c)} :: read(c) == ReadRecord(directory, c)
    ensures v == Walk(read, 0, entryCount, 0)
  {
    ghost var whole := Walk(read, 0, entryCount, 0);
    var cursor: nat, totalUncompressedBytes: nat := 0, 0;
    for index := 0 to entryCount
      invariant whole == Walk(read, cursor, entryCount - index, totalUncompressedBytes)
    {
      WalkStep(read, cursor, entryCount - index, totalUncompressedBytes);
      var found := InspectRecord(directory, cursor);
      if found.Bad? { return Rejected(found.error); }
      totalUncompressedBytes := totalUncompressedBytes + found.record.size;
      if totalUncompressedBytes > MAX_EXTRACTED_BYTES { return Rejected(TooLarge); }
      cursor := cursor + |found.record.bytes|;
    }
    // The source then tests that the cursor has not run past the directory; by `ReadRecord` it has not.
    return Accepted;
  }

  /** `inspectGodotDocumentationArchive` on the bytes of the file. */
  method InspectArchive(file: seq<Byte>) returns (v: Verdict)
    ensures v == Inspect(file)
  {
    if |file| < 22 || |file| > MAX_DOWNLOAD_BYTES { return Rejected(BadSize); }
    var endOffset := FindEndRecord(file);
    if endOffset < 0 { return Rejected(NoDirectory); }
    v := InspectDirectory(file, endOffset);
  }

  method InspectDirectory(file: seq<Byte>, endOffset: nat) returns (v: Verdict)
    requires endOffset + 22 <= |file| <= MAX_DOWNLOAD_BYTES
    ensures v == DirectoryVerdict(file, endOffset)
  {
    var inBounds := CheckDirectoryBounds(file, endOffset);
    if !inBounds { return Rejected(BadDirectory); }
    var directory := Directory(file, endOffset);
    v := InspectRecords(directory, U16LE(file, endOffset + 10), Reader(directory));
  }

  /** The bounds the source tests; those against the ZIP64 markers follow from the others. */
  method CheckDirectoryBounds(file: seq<Byte>, endOffset: nat) returns (ok: bool)
    requires endOffset + 22 <= |file| <= MAX_DOWNLOAD_BYTES
    ensures ok == DirectoryInBounds(file, endOffset)
  {
    var entryCount := U16LE(file, endOffset + 10);
    var centralDirectorySize := U32LE(file, endOffset + 12);
    var centralDirectoryOffset := U32LE(file, endOffset + 16);
    ok := !(entryCount == 0
            || entryCount == 0xffff
            || entryCount > MAX_ARCHIVE_ENTRIES
            || centralDirectorySize == 0xffff_ffff
            || centralDirectoryOffset == 0xffff_ffff
            || centralDirectorySize > MAX_DIRECTORY_BYTES
            || centralDirectoryOffset + centralDirectorySize > endOffset);
  }

  lemma TailReads(file: seq<Byte>, start: nat, at: nat)
    requires start + at + 22 <= |file|
    ensures var tail := file[start..];
            && U32LE(tail, at) == U32LE(file, start + at)
            && U16LE(tail, at + 20) == U16LE(file, start + at + 20)
  {
    assert forall k :: 0 <= k < |file| - start ==> file[start..][k] == file[start + k];
  }

  /** A comment has at most 65535 bytes, so the tail that is searched holds every end record. */
  lemma {:induction false} NoEndBeforeTail(file: seq<Byte>, from: int)
    requires -1 <= from < |file| - 65_557 || from == -1 <= |file| - 22
    ensures FindEnd(file, from) == -1
    decreases from + 1
  {
    if from >= 0 { NoEndBeforeTail(file, from - 1); }
  }

  // ----- Exactness -----

  /** The directory begins with `count` acceptable records, end to end, with room for their contents. */
  ghost predicate SoundDirectory(dir: seq<Byte>, count: nat)
  {
    exists records: seq<Record> ::
      |records| == count && Holds(dir, 0, records) && Total(records) <= MAX_EXTRACTED_BYTES
  }

  /** What an archive that may be extracted looks like. */
  ghost predicate Sound(file: seq<Byte>)
  {
    && 22 <= |file| <= MAX_DOWNLOAD_BYTES
    && exists end: nat :: SoundAt(file, end)
  }

  ghost predicate SoundAt(file: seq<Byte>, end: nat)
  {
    && LastEndRecordAt(file, end) && DirectoryInBounds(file, end)
    && SoundDirectory(Directory(file, end), U16LE(file, end + 10))
  }

  lemma WalkIsExact(dir: seq<Byte>, count: nat)
    ensures Walk(Reader(dir), 0, count, 0) == Accepted <==> SoundDirectory(dir, count)
  {
    var read := Reader(dir);
    if Walk(read, 0, count, 0) == Accepted {
      var records := WalkReads(read, 0, count, 0);
      ChainIsExact(dir, 0, records, read);
    }
    if SoundDirectory(dir, count) {
      var records: seq<Record> :|
        |records| == count && Holds(dir, 0, records) && Total(records) <= MAX_EXTRACTED_BYTES;
      ChainIsExact(dir, 0, records, read);
      WalkAccepts(read, 0, records, 0);
    }
  }

  /**
   A byte string is accepted exactly when its last end record announces between 1 and 50000 records
   that lie end to end at the front of a directory inside the file, all of them supported and safe,
   with contents of at most 2 GiB together.
   */
  lemma InspectIsExact(file: seq<Byte>)
    ensures Inspect(file) == Accepted <==> Sound(file)
  {
    if 22 <= |file| <= MAX_DOWNLOAD_BYTES {
      var end := FindEnd(file, |file| - 22);
      if end >= 0 { DirectoryIsExact(file, end); }
      if Inspect(file) == Accepted { assert SoundAt(file, end); }
      if Sound(file) {
        var e: nat :| SoundAt(file, e);
        assert e == end;
      }
    }
  }

  lemma DirectoryIsExact(file: seq<Byte>, end: nat)
    requires LastEndRecordAt(file, end)
    ensures DirectoryVerdict(file, end) == Accepted <==> SoundAt(file, end)
  {
    if DirectoryInBounds(file, end) { WalkIsExact(Directory(file, end), U16LE(file, end + 10)); }
  }

  // ----- Printed archives are accepted -----

  lemma ReadSlice16(b: seq<Byte>, at: nat, n: nat)
    requires at + 2 <= |b| && n < 0x1_0000 && b[at..at + 2] == Put16LE(n)
    ensures U16LE(b, at) == n
  {
    WindowReads(b, at, Put16LE(n));
    assert U16LE(Put16LE(n), 0) == U16LE(b, at + 0);
  }

  lemma ReadSlice32(b: seq<Byte>, at: nat, n: nat)
    requires at + 4 <= |b| && n < 0x1_0000_0000 && b[at..at + 4] == Put32LE(n)
    ensures U32LE(b, at) == n
  {
    WindowReads(b, at, Put32LE(n));
    assert U32LE(Put32LE(n), 0) == U32LE(b, at + 0);
  }

  /** The fixed part of a record; `made`, `stamp`, `disk` and `offset` are bytes the reader skips. */
  function Fixed(made: seq<Byte>, flags: nat, stamp: seq<Byte>, size: nat, lengths: (nat, nat, nat),
                 disk: seq<Byte>, external: nat, offset: seq<Byte>): (f: seq<Byte>)
    requires |made| == 4 && |stamp| == 14 && |disk| == 4 && |offset| == 4
    requires flags < 0x1_0000 && size < 0x1_0000_0000 && external < 0x1_0000_0000
    requires lengths.0 < 0x1_0000 && lengths.1 < 0x1_0000 && lengths.2 < 0x1_0000
    ensures |f| == 46 && U32LE(f, 0) == ENTRY_SIGNATURE && U16LE(f, 8) == flags && U32LE(f, 24) == size
    ensures U16LE(f, 28) == lengths.0 && U16LE(f, 30) == lengths.1 && U16LE(f, 32) == lengths.2
    ensures U32LE(f, 38) == external
  {
    var front := Put32LE(ENTRY_SIGNATURE) + made + Put16LE(flags) + stamp;
    var middle := Put32LE(size) + Put16LE(lengths.0) + Put16LE(lengths.1) + Put16LE(lengths.2);
    var back := disk + Put32LE(external) + offset;
    FrontReads(made, flags, stamp, middle + back);
    MiddleReads(front, size, lengths, back);
    BackReads(front + middle, disk, external, offset);
    assert front + (middle + back) == front + middle + back;
    front + middle + back
  }

  lemma FrontReads(made: seq<Byte>, flags: nat, stamp: seq<Byte>, rest: seq<Byte>)
    requires |made| == 4 && |stamp| == 14 && flags < 0x1_0000
    ensures var f := Put32LE(ENTRY_SIGNATURE) + made + Put16LE(flags) + stamp + rest;
            U32LE(f, 0) == ENTRY_SIGNATURE && U16LE(f, 8) == flags
  {
    var f := Put32LE(ENTRY_SIGNATURE) + made + Put16LE(flags) + stamp + rest;
    assert f[0..4] == Put32LE(ENTRY_SIGNATURE) && f[8..10] == Put16LE(flags);
    ReadSlice32(f, 0, ENTRY_SIGNATURE);
    ReadSlice16(f, 8, flags);
  }

  lemma MiddleReads(front: seq<Byte>, size: nat, lengths: (nat, nat, nat), rest: seq<Byte>)
    requires |front| == 24 && size < 0x1_0000_0000
    requires lengths.0 < 0x1_0000 && lengths.1 < 0x1_0000 && lengths.2 < 0x1_0000
    ensures var f := front + (Put32LE(size) + Put16LE(lengths.0) + Put16LE(lengths.1) + Put16LE(lengths.2)) + rest;
            && U32LE(f, 24) == size && U16LE(f, 28) == lengths.0
            && U16LE(f, 30) == lengths.1 && U16LE(f, 32) == lengths.2
  {
    var m := Put32LE(size) + Put16LE(lengths.0) + Put16LE(lengths.1) + Put16LE(lengths.2);
    var f := front + m + rest;
    assert f[24..34] == m;
    assert m[0..4] == Put32LE(size) && m[4..6] == Put16LE(lengths.0);
    assert m[6..8] == Put16LE(lengths.1) && m[8..10] == Put16LE(lengths.2);
    SliceOfSlice(f, 24, 34, 0, 4);
    SliceOfSlice(f, 24, 34, 4, 6);
    SliceOfSlice(f, 24, 34, 6, 8);
    SliceOfSlice(f, 24, 34, 8, 10);
    ReadSlice32(f, 24, size);
    ReadSlice16(f, 28, lengths.0);
    ReadSlice16(f, 30, lengths.1);
    ReadSlice16(f, 32, lengths.2);
  }

  lemma BackReads(front: seq<Byte>, disk: seq<Byte>, external: nat, offset: seq<Byte>)
    requires |front| == 34 && |disk| == 4 && external < 0x1_0000_0000
    ensures U32LE(front + (disk + Put32LE(external) + offset), 38) == external
  {
    var f := front + (disk + Put32LE(external) + offset);
    assert f[38..42] == Put32LE(external);
    ReadSlice32(f, 38, external);
  }

  /** A record with the given contents. */
  function Build(fixed: seq<Byte>, name: seq<Byte>, extra: seq<Byte>, comment: seq<Byte>): (r: Record)
    requires |fixed| == 46 && U32LE(fixed, 0) == ENTRY_SIGNATURE && U16LE(fixed, 28) == |name|
    requires U16LE(fixed, 30) == |extra| && U16LE(fixed, 32) == |comment|
    ensures r.WellFormed() && r.name == name
    ensures r.flags == U16LE(fixed, 8) && r.size == U32LE(fixed, 24) && r.unixMode == U32LE(fixed, 38) / 0x1_0000
  {
    var b := fixed + name + extra + comment;
    assert b[0..46] == fixed && b[46..46 + |name|] == name;
    WindowReads(b, 0, fixed);
    assert U32LE(fixed, 0) == U32LE(b, 0);
    Record(b, U16LE(fixed, 8), U32LE(fixed, 24), U32LE(fixed, 38) / 0x1_0000, name)
  }

  /** An entry of an archive by its fields; `made`, `stamp`, `disk` and `offset` are not looked at by the reader. */
  datatype Entry = Entry(name: seq<Byte>, flags: nat, size: nat, attributes: nat, extra: seq<Byte>, comment: seq<Byte>,
                         made: seq<Byte>, stamp: seq<Byte>, disk: seq<Byte>, offset: seq<Byte>)
  {
    /** The fields fit into a record. */
    predicate Fits()
    {
      && flags < 0x1_0000 && size < 0x1_0000_0000 && attributes < 0x1_0000_0000
      && |name| < 0x1_0000 && |extra| < 0x1_0000 && |comment| < 0x1_0000
      && |made| == 4 && |stamp| == 14 && |disk| == 4 && |offset| == 4
    }

    /** Neither encrypted nor a ZIP64 entry, a harmless name, no symbolic link. */
    predicate IsHarmless()
    {
      flags % 2 == 0 && size != 0xffff_ffff && name != [] && StaysInside(name) && attributes / 0x1_0000 / 0x1000 != 0xA
    }
  }

  const SKIPPED: seq<Byte> := [0, 0, 0, 0]

  type Printable = e: Entry | e.Fits()
    witness Entry([], 0, 0, 0, [], [], SKIPPED, SKIPPED + SKIPPED + SKIPPED + [0, 0], SKIPPED, SKIPPED)

  function PrintEntry(e: Printable): (r: Record)
    ensures r.WellFormed() && r.size == e.size
    ensures Acceptable(r) <==> e.IsHarmless()
  {
    Build(Fixed(e.made, e.flags, e.stamp, e.size, (|e.name|, |e.extra|, |e.comment|), e.disk, e.attributes, e.offset),
          e.name, e.extra, e.comment)
  }

  predicate All<T>(xs: seq<T>, p: T -> bool) { xs == [] || (p(xs[0]) && All(xs[1..], p)) }

  lemma {:induction false} AllMeansEach<T>(xs: seq<T>, p: T -> bool)
    ensures All(xs, p) <==> forall i :: 0 <= i < |xs| ==> p(xs[i])
  {
    if xs != [] {
      AllMeansEach(xs[1..], p);
      assert forall i :: 0 <= i < |xs| - 1 ==> xs[1..][i] == xs[i + 1];
      assert forall i :: 0 < i < |xs| ==> xs[i] == xs[1..][i - 1];
    }
  }

  function Map<S, T>(xs: seq<S>, f: S -> T): (ys: seq<T>)
    ensures |ys| == |xs|
  {
    if xs == [] then [] else [f(xs[0])] + Map(xs[1..], f)
  }

  lemma {:induction false} AllOfMap<S(!new), T>(xs: seq<S>, f: S -> T, p: T -> bool, q: S -> bool)
    requires forall x {:trigger f(x)} :: p(f(x)) <==> q(x)
    ensures All(Map(xs, f), p) <==> All(xs, q)
  {
    if xs != [] {
      AllOfMap(xs[1..], f, p, q);
      assert ([f(xs[0])] + Map(xs[1..], f))[1..] == Map(xs[1..], f);
    }
  }

  lemma {:induction false} TotalOfMap(entries: seq<Printable>, write: Printable -> Record)
    requires forall e {:trigger write(e)} :: write(e).size == e.size
    ensures Total(Map(entries, write)) == TotalSize(entries)
  {
    if entries != [] {
      TotalOfMap(entries[1..], write);
      assert ([write(entries[0])] + Map(entries[1..], write))[1..] == Map(entries[1..], write);
    }
  }

  function TotalSize(entries: seq<Printable>): nat
  {
    if entries == [] then 0 else entries[0].size + TotalSize(entries[1..])
  }

  predicate IsHarmless(e: Printable) { e.IsHarmless() }

  predicate IsWellFormed(r: Record) { r.WellFormed() }

  function PrintEntries(entries: seq<Printable>): seq<Record> { Map(entries, PrintEntry) }

  lemma PrintedEntries(entries: seq<Printable>)
    ensures Total(PrintEntries(entries)) == TotalSize(entries)
    ensures All(PrintEntries(entries), Acceptable) <==> All(entries, IsHarmless)
    ensures All(PrintEntries(entries), IsWellFormed)
  {
    TotalOfMap(entries, PrintEntry);
    AllOfMap(entries, PrintEntry, Acceptable, IsHarmless);
    AllOfMap(entries, PrintEntry, IsWellFormed, (e: Printable) => true);
    AllMeansEach(entries, (e: Printable) => true);
  }

  /** Two well-formed records at the same place are the same. */
  lemma SamePlaceSameRecord(dir: seq<Byte>, c: nat, p: Record, h: Record)
    requires p.WellFormed() && c + |p.bytes| <= |dir| && dir[c..c + |p.bytes|] == p.bytes
    requires h.WellFormed() && c + |h.bytes| <= |dir| && dir[c..c + |h.bytes|] == h.bytes
    ensures h == p
  {
    ReadOfPrint(dir, c, p);
    ReadOfPrint(dir, c, h);
  }

  lemma PrintedHead(dir: seq<Byte>, c: nat, records: seq<Record>)
    requires c <= |dir| && records != [] && PrintAll(records) <= dir[c..]
    ensures var n := |records[0].bytes|;
            c + n <= |dir| && dir[c..c + n] == records[0].bytes && PrintAll(records[1..]) <= dir[c + n..]
  {
    assert |PrintAll(records)| <= |dir[c..]|;
    PrefixSplits(dir, c, records[0].bytes, PrintAll(records[1..]));
  }

  predicate LaidOut(dir: seq<Byte>, c: nat, records: seq<Record>) { c <= |dir| && PrintAll(records) <= dir[c..] }

  lemma SameHead(dir: seq<Byte>, c: nat, a: seq<Record>, b: seq<Record>)
    requires LaidOut(dir, c, a) && LaidOut(dir, c, b) && a != [] && b != []
    requires a[0].WellFormed() && b[0].WellFormed()
    ensures a[0] == b[0]
    ensures LaidOut(dir, c + |a[0].bytes|, a[1..]) && LaidOut(dir, c + |a[0].bytes|, b[1..])
  {
    PrintedHead(dir, c, a);
    PrintedHead(dir, c, b);
    SamePlaceSameRecord(dir, c, a[0], b[0]);
  }

  /** Well-formed records can be laid out from `c` on in one way only. */
  lemma {:induction false} LayoutIsUnique(dir: seq<Byte>, c: nat, a: seq<Record>, b: seq<Record>)
    requires |a| == |b| && LaidOut(dir, c, a) && LaidOut(dir, c, b)
    requires All(a, IsWellFormed) && All(b, IsWellFormed)
    ensures a == b
    decreases |a|
  {
    if a != [] {
      SameHead(dir, c, a, b);
      LayoutIsUnique(dir, c + |a[0].bytes|, a[1..], b[1..]);
      assert a == [a[0]] + a[1..] && b == [b[0]] + b[1..];
    }
  }

  lemma {:induction false} AcceptableAreWellFormed(records: seq<Record>)
    requires All(records, Acceptable)
    ensures All(records, IsWellFormed)
  {
    if records != [] { AcceptableAreWellFormed(records[1..]); }
  }

  lemma RecordsAreSoundExactly(records: seq<Record>)
    requires All(records, IsWellFormed)
    ensures SoundDirectory(PrintAll(records), |records|) <==> All(records, Acceptable) && Total(records) <= MAX_EXTRACTED_BYTES
  {
    var dir := PrintAll(records);
    AllMeansEach(records, Acceptable);
    assert dir[0..] == dir;
    if SoundDirectory(dir, |records|) {
      var held: seq<Record> :|
        |held| == |records| && Holds(dir, 0, held) && Total(held) <= MAX_EXTRACTED_BYTES;
      AllMeansEach(held, Acceptable);
      AcceptableAreWellFormed(held);
      LayoutIsUnique(dir, 0, records, held);
    }
    if All(records, Acceptable) { assert Holds(dir, 0, records); }
  }

  function PrintEnd(disks: seq<Byte>, count: nat, size: nat, offset: nat, comment: seq<Byte>): (b: seq<Byte>)
    requires |disks| == 6 && count < 0x1_0000 && size < 0x1_0000_0000 && offset < 0x1_0000_0000
    requires |comment| < 0x1_0000
    ensures |b| == 22 + |comment|
  {
    Put32LE(END_SIGNATURE) + disks + Put16LE(count) + Put32LE(size) + Put32LE(offset) + Put16LE(|comment|) + comment
  }

  /** An archive: file data, the directory, the end record. */
  function PrintArchive(data: seq<Byte>, entries: seq<Printable>, disks: seq<Byte>, comment: seq<Byte>): seq<Byte>
    requires HasRoom(data, entries, disks, comment)
  {
    var dir := PrintAll(PrintEntries(entries));
    data + dir + PrintEnd(disks, |entries|, |dir|, |data|, comment)
  }

  /** Everything fits into the fields of the end record. */
  predicate HasRoom(data: seq<Byte>, entries: seq<Printable>, disks: seq<Byte>, comment: seq<Byte>)
  {
    && |entries| < 0x1_0000 && |disks| == 6 && |comment| < 0x1_0000
    && |data| < 0x1_0000_0000 && |PrintAll(PrintEntries(entries))| < 0x1_0000_0000
  }

  lemma EndSlices(file: seq<Byte>, front: seq<Byte>, disks: seq<Byte>, count: nat, size: nat, offset: nat, comment: seq<Byte>)
    requires |disks| == 6 && count < 0x1_0000 && size < 0x1_0000_0000 && offset < 0x1_0000_0000
    requires |comment| < 0x1_0000
    requires file == front + PrintEnd(disks, count, size, offset, comment)
    ensures var end := |front|;
            && EndRecordAt(file, end) && U16LE(file, end + 10) == count
            && U32LE(file, end + 12) == size && U32LE(file, end + 16) == offset
  {
    var end := |front|;
    assert file[end..end + 4] == Put32LE(END_SIGNATURE);
    assert file[end + 10..end + 12] == Put16LE(count);
    assert file[end + 12..end + 16] == Put32LE(size);
    assert file[end + 16..end + 20] == Put32LE(offset);
    assert file[end + 20..end + 22] == Put16LE(|comment|);
    ReadSlice32(file, end, END_SIGNATURE);
    ReadSlice16(file, end + 10, count);
    ReadSlice32(file, end + 12, size);
    ReadSlice32(file, end + 16, offset);
    ReadSlice16(file, end + 20, |comment|);
  }

  /** The end of a file whose last end record lies behind `front` and announces the directory `dir` at `offset`. */
  lemma SoundByItsEnd(file: seq<Byte>, end: nat, count: nat, offset: nat, dir: seq<Byte>)
    requires LastEndRecordAt(file, end) && U16LE(file, end + 10) == count
    requires U32LE(file, end + 12) == |dir| && U32LE(file, end + 16) == offset
    requires offset + |dir| <= end && file[offset..offset + |dir|] == dir
    ensures Sound(file) <==>
              && |file| <= MAX_DOWNLOAD_BYTES && 0 < count <= MAX_ARCHIVE_ENTRIES && |dir| <= MAX_DIRECTORY_BYTES
              && SoundDirectory(dir, count)
  {
    if Sound(file) {
      var e: nat :| SoundAt(file, e);
      assert e == end;
    }
    if |file| <= MAX_DOWNLOAD_BYTES && DirectoryInBounds(file, end) && SoundDirectory(dir, count) {
      assert SoundAt(file, end);
    }
  }

  lemma PrintedEndIsLast(front: seq<Byte>, disks: seq<Byte>, count: nat, size: nat, offset: nat, comment: seq<Byte>)
    requires |disks| == 6 && count < 0x1_0000 && size < 0x1_0000_0000 && offset < 0x1_0000_0000
    requires |comment| < 0x1_0000
    requires var file := front + PrintEnd(disks, count, size, offset, comment);
             comment == [] || forall j :: |front| < j ==> !EndRecordAt(file, j)
    ensures var file := front + PrintEnd(disks, count, size, offset, comment);
            && LastEndRecordAt(file, |front|)
            && U16LE(file, |front| + 10) == count && U32LE(file, |front| + 12) == size && U32LE(file, |front| + 16) == offset
  {
    EndSlices(front + PrintEnd(disks, count, size, offset, comment), front, disks, count, size, offset, comment);
  }

  /** The bounds within which the source accepts an archive. */
  predicate WithinBounds(data: seq<Byte>, entries: seq<Printable>, disks: seq<Byte>, comment: seq<Byte>)
    requires HasRoom(data, entries, disks, comment)
  {
    && 0 < |entries| <= 50_000 && |PrintAll(PrintEntries(entries))| <= 64 * 1024 * 1024
    && |PrintArchive(data, entries, disks, comment)| <= 512 * 1024 * 1024 && TotalSize(entries) <= 2 * 1024 * 1024 * 1024
  }

  /**
   An archive printed from any entries is accepted if and only if they are all harmless and the archive is
   within the bounds - unless its comment makes a later position look like an end record, which an empty
   comment cannot.
   */
  lemma PrintedArchiveIsAcceptedExactly(data: seq<Byte>, entries: seq<Printable>, disks: seq<Byte>, comment: seq<Byte>)
    requires HasRoom(data, entries, disks, comment)
    requires var file := PrintArchive(data, entries, disks, comment);
             comment == [] || forall j :: |file| - 22 - |comment| < j ==> !EndRecordAt(file, j)
    ensures Inspect(PrintArchive(data, entries, disks, comment)) == Accepted <==>
              All(entries, IsHarmless) && WithinBounds(data, entries, disks, comment)
  {
    InspectIsExact(PrintArchive(data, entries, disks, comment));
    PrintedArchiveIsSoundExactly(data, entries, disks, comment);
  }

  /**
   With any comment: what decides is the last position that passes for an end record. It is the printed one,
   and then the entries decide, or it lies in the comment, and then only the directory that it announces does.
   */
  lemma PrintedArchiveIsReadByItsLastEnd(data: seq<Byte>, entries: seq<Printable>, disks: seq<Byte>, comment: seq<Byte>)
    returns (end: nat)
    requires HasRoom(data, entries, disks, comment)
    ensures var file := PrintArchive(data, entries, disks, comment);
            && LastEndRecordAt(file, end) && |file| - 22 - |comment| <= end
            && (Inspect(file) == Accepted <==>
                  if end == |file| - 22 - |comment| then All(entries, IsHarmless) && WithinBounds(data, entries, disks, comment)
                  else |file| <= MAX_DOWNLOAD_BYTES && SoundAt(file, end))
  {
    var file := PrintArchive(data, entries, disks, comment);
    end := PrintedEnd(data, entries, disks, comment);
    if end == |file| - 22 - |comment| {
      PrintedArchiveIsAcceptedExactly(data, entries, disks, comment);
    } else {
      SoundAtTheLastEnd(file, end);
    }
  }

  lemma SoundAtTheLastEnd(file: seq<Byte>, end: nat)
    requires LastEndRecordAt(file, end)
    ensures Inspect(file) == Accepted <==> |file| <= MAX_DOWNLOAD_BYTES && SoundAt(file, end)
  {
    InspectIsExact(file);
    if Sound(file) {
      var e: nat :| SoundAt(file, e);
      assert e == end;
    }
  }

  lemma PrintedEnd(data: seq<Byte>, entries: seq<Printable>, disks: seq<Byte>, comment: seq<Byte>) returns (end: nat)
    requires HasRoom(data, entries, disks, comment)
    ensures var file := PrintArchive(data, entries, disks, comment);
            LastEndRecordAt(file, end) && |file| - 22 - |comment| <= end
  {
    var dir := PrintAll(PrintEntries(entries));
    var file := PrintArchive(data, entries, disks, comment);
    EndSlices(file, data + dir, disks, |entries|, |dir|, |data|, comment);
    var last := FindEnd(file, |file| - 22);
    assert last >= |data + dir|;
    end := last;
  }

  lemma PrintedArchiveIsSoundExactly(data: seq<Byte>, entries: seq<Printable>, disks: seq<Byte>, comment: seq<Byte>)
    requires HasRoom(data, entries, disks, comment)
    requires var file := PrintArchive(data, entries, disks, comment);
             comment == [] || forall j :: |file| - 22 - |comment| < j ==> !EndRecordAt(file, j)
    ensures Sound(PrintArchive(data, entries, disks, comment)) <==>
              All(entries, IsHarmless) && WithinBounds(data, entries, disks, comment)
  {
    PrintedFileIsSoundExactly(data, PrintAll(PrintEntries(entries)), |entries|, disks, comment);
    PrintedEntries(entries);
    RecordsAreSoundExactly(PrintEntries(entries));
  }

  lemma PrintedFileIsSoundExactly(data: seq<Byte>, dir: seq<Byte>, count: nat, disks: seq<Byte>, comment: seq<Byte>)
    requires count < 0x1_0000 && |disks| == 6 && |comment| < 0x1_0000 && |data| < 0x1_0000_0000 && |dir| < 0x1_0000_0000
    requires var file := data + dir + PrintEnd(disks, count, |dir|, |data|, comment);
             comment == [] || forall j :: |data + dir| < j ==> !EndRecordAt(file, j)
    ensures var file := data + dir + PrintEnd(disks, count, |dir|, |data|, comment);
            Sound(file) <==>
              && |file| <= MAX_DOWNLOAD_BYTES && 0 < count <= MAX_ARCHIVE_ENTRIES && |dir| <= MAX_DIRECTORY_BYTES
              && SoundDirectory(dir, count)
  {
    var file := data + dir + PrintEnd(disks, count, |dir|, |data|, comment);
    PrintedEndIsLast(data + dir, disks, count, |dir|, |data|, comment);
    assert file[|data|..|data| + |dir|] == dir;
    SoundByItsEnd(file, |data + dir|, count, |data|, dir);
  }
}
