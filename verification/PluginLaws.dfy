/** What updates and rollbacks guarantee over every point of failure, and exactly when. */
module PluginLaws {
  import opened Results
  import opened PluginTypes
  import opened PluginVersions
  import opened PluginManager

  // ----- Records -----

  predicate UniqueIds(records: seq<Record>)
  {
    records == [] || (records[0].id !in Ids(records[1..]) && UniqueIds(records[1..]))
  }

  lemma {:induction false} FoundIds(records: seq<Record>, id: PluginId)
    ensures Find(records, id).Some? <==> id in Ids(records)
    ensures Find(records, id).Some? ==> Find(records, id).value.id == id
  {
    if records != [] { FoundIds(records[1..], id); }
  }

  lemma {:induction false} ReplaceTwice(records: seq<Record>, id: PluginId, a: Record, b: Record)
    requires a.id == id
    ensures Replace(Replace(records, id, a), id, b) == Replace(records, id, b)
  {
    if records != [] { ReplaceTwice(records[1..], id, a, b); }
  }

  lemma {:induction false} ReplaceAbsent(records: seq<Record>, id: PluginId, r: Record)
    requires id !in Ids(records)
    ensures Replace(records, id, r) == records
  {
    if records != [] { ReplaceAbsent(records[1..], id, r); }
  }

  lemma {:induction false} ReplaceByItself(records: seq<Record>, id: PluginId)
    requires UniqueIds(records) && Find(records, id).Some?
    ensures Replace(records, id, Find(records, id).value) == records
  {
    if records[0].id == id { ReplaceAbsent(records[1..], id, records[0]); } else { ReplaceByItself(records[1..], id); }
  }

  lemma {:induction false} FindReplaced(records: seq<Record>, id: PluginId, r: Record)
    requires r.id == id && Find(records, id).Some?
    ensures Find(Replace(records, id, r), id) == Some(r)
  {
    if records[0].id != id { FindReplaced(records[1..], id, r); }
  }

  // ----- Updates are all or nothing -----

  /** A copy that failed part of the way: files to be written are old, new, damaged or missing; others are untouched. */
  predicate PartialCopy(base: Option<Package>, over: Package, left: Option<Package>)
  {
    && (base.Some? ==> left.Some?)
    && (left.Some? ==>
          && left.value.Keys <= (if base.None? then {} else base.value.Keys) + over.Keys
          && (base.Some? ==> forall f :: f in base.value && f !in over ==> f in left.value && left.value[f] == base.value[f]))
  }

  /** A pruning that failed: directories that it deletes may be in any state, the others are untouched. */
  predicate PartialPrune(stored: Archive, order: seq<Fingerprint>, left: Archive)
  {
    forall f :: f in stored && f !in Outdated(stored, order) ==> f in left && left[f] == stored[f]
  }

  predicate Plausible(s: State, current: Record, u: Update, fault: Fault)
  {
    s.package.Some? ==>
      match fault
      case AtArchiving(left) => PartialCopy(DirectoryOf(s.archive, current.fingerprint).package, Strip(s.package.value), left)
      case AtPruning(left) => PartialPrune(Stored(s.archive, current, s.package.value, u.archivedAt), u.order, left)
      case _ => true
  }

  /** The same records, trust, profiles as they are read, and package files. */
  predicate SamePlugin(a: State, b: State)
  {
    && a.docs.records == b.docs.records && a.docs.trust == b.docs.trust && ReadProfiles(a.docs) == ReadProfiles(b.docs)
    && StripAll(a.package) == StripAll(b.package)
  }

  /** The update gets past its checks; an analysis only accepts packages with a manifest. */
  ghost predicate Ready(s: State, current: Record, u: Update, analyzes: Analysis)
  {
    && UniqueIds(s.docs.records) && Find(s.docs.records, u.id) == Some(current)
    && current.fingerprint == u.expected && current.packageName == u.scan.packageName
    && (forall p :: analyzes(p) ==> MANIFEST in p)
    && (s.package.Some? ==> Lists(u.order, Stored(s.archive, current, s.package.value, u.archivedAt)))
  }

  /**
   What the archive must be like before the call. For a package that analyses: no snapshot of the current
   version yet, no leftover files that the package does not have, and a clock on which the version about to
   be archived is the newest. Otherwise the update stops at the analysis, and an archived version must agree.
   */
  predicate Recoverable(s: State, current: Record, u: Update, analyzes: Analysis)
  {
    var d := DirectoryOf(s.archive, current.fingerprint);
    if s.package.Some? && analyzes(s.package.value) then
      && d.snapshot.None?
      && Strip(PackageOf(d)).Keys <= Strip(s.package.value).Keys
      && Survivor(Stored(s.archive, current, s.package.value, u.archivedAt), u.order) == Some(current.fingerprint)
    else
      IsVersion(d) ==> StripAll(d.package) == StripAll(s.package)
  }

  lemma WrittenRecords(d: Documents, r: Record, id: PluginId, trust: Trust, active: bool, now: Time, fault: Fault)
    ensures var records := WriteDocuments(d, r, id, trust, active, now, fault).state.records;
            records == d.records || records == Replace(d.records, id, r)
  {
  }

  lemma ExchangedDocuments(s: State, current: Record, files: Package, r: Record, trust: Trust, active: bool, id: PluginId,
                           archivedAt: Time, now: Time, order: seq<Fingerprint>, analyzes: Analysis, fault: Fault)
    ensures var docs := Exchange(s, current, files, r, trust, active, id, archivedAt, now, order, analyzes, fault).state.docs;
            docs == s.docs || docs == WriteDocuments(s.docs, r, id, trust, active, now, fault).state
  {
  }

  /** An attempt that fails has replaced the record or left the records alone. */
  lemma RecordsOfAttempt(s: State, current: Record, u: Update, analyzes: Analysis, fault: Fault)
    ensures var records := Attempt(s, current, u, analyzes, fault).state.docs.records;
            records == s.docs.records || records == Replace(s.docs.records, u.id, NextRecord(current, u))
  {
    var next := NextRecord(current, u);
    ExchangedDocuments(s, current, Strip(u.prepared), next, ReviewRequired, false, u.id,
                       u.archivedAt, u.now, u.order, analyzes, fault);
    WrittenRecords(s.docs, next, u.id, ReviewRequired, false, u.now, fault);
  }

  lemma DocumentsRecover(s: State, failed: State, current: Record, u: Update)
    requires UniqueIds(s.docs.records) && Find(s.docs.records, u.id) == Some(current)
    requires failed.docs.records == s.docs.records || failed.docs.records == Replace(s.docs.records, u.id, NextRecord(current, u))
    ensures var r := Recover(failed, current, s.docs);
            r.docs.records == s.docs.records && r.docs.trust == s.docs.trust && ReadProfiles(r.docs) == ReadProfiles(s.docs)
  {
    FoundIds(s.docs.records, u.id);
    ReplaceByItself(s.docs.records, u.id);
    ReplaceTwice(s.docs.records, u.id, NextRecord(current, u), current);
    ReadableTwice(s.docs.profiles, Ids(s.docs.records));
  }

  lemma PackageRecovers(s: State, current: Record, u: Update, analyzes: Analysis, fault: Fault)
    requires Ready(s, current, u, analyzes) && Recoverable(s, current, u, analyzes) && Plausible(s, current, u, fault)
    requires !Attempt(s, current, u, analyzes, fault).ok
    ensures StripAll(Recover(Attempt(s, current, u, analyzes, fault).state, current, s.docs).package) == StripAll(s.package)
  {
    if s.package.Some? && analyzes(s.package.value) {
      var (base, before) := (PackageOf(DirectoryOf(s.archive, current.fingerprint)), s.package.value);
      StripTwice(before);
      StripOverlay(base, before);
      PruneKeepsTheNewest(Stored(s.archive, current, before, u.archivedAt), u.order, current.fingerprint);
    }
  }

  lemma StripOverlay(base: Package, over: Package)
    ensures Strip(base + Strip(over)) == Strip(over) <==> Strip(base).Keys <= Strip(over).Keys
  {
    var (merged, strip) := (Strip(base + Strip(over)), Strip(over));
    assert forall f :: f in merged <==> f in Strip(base) || f in strip;
    assert forall f :: f in strip ==> merged[f] == strip[f];
    if Strip(base).Keys <= strip.Keys { assert merged.Keys == strip.Keys; }
    if merged == strip { assert forall f :: f in Strip(base) ==> f in merged; }
  }

  const MANIFEST: Path := ["package.json"]

  lemma ManifestIsCopied(p: Package)
    requires MANIFEST in p
    ensures MANIFEST in Strip(p)
  {
    assert MANIFEST[1..] == [] && IsCopied([]);
  }

  /** The package after a failed update. */
  function PackageAfter(s: State, current: Record, u: Update, analyzes: Analysis, fault: Fault): Option<Package>
  {
    Recover(Attempt(s, current, u, analyzes, fault).state, current, s.docs).package
  }

  /** A former snapshot and a copy that breaks off before the manifest: the damaged version is restored. */
  lemma BrokenCopyIsRestored(s: State, current: Record, u: Update, analyzes: Analysis) returns (fault: Fault)
    requires Ready(s, current, u, analyzes) && s.package.Some? && analyzes(s.package.value)
    requires DirectoryOf(s.archive, current.fingerprint).snapshot.Some?
    ensures Plausible(s, current, u, fault) && !Attempt(s, current, u, analyzes, fault).ok
    ensures StripAll(PackageAfter(s, current, u, analyzes, fault)) != StripAll(s.package)
  {
    var d := DirectoryOf(s.archive, current.fingerprint);
    var left := PackageOf(d) - {MANIFEST};
    fault := AtArchiving(Some(left));
    ManifestIsCopied(s.package.value);
    assert MANIFEST !in Strip(left);
    assert PackageAfter(s, current, u, analyzes, fault) == Some(left);
  }

  /** Leftover files are restored with the version, and a version that pruning deletes is not restored at all. */
  lemma RemovedPackageIsNotRestored(s: State, current: Record, u: Update, analyzes: Analysis)
    requires Ready(s, current, u, analyzes) && s.package.Some? && analyzes(s.package.value)
    requires !Recoverable(s, current, u, analyzes) && DirectoryOf(s.archive, current.fingerprint).snapshot.None?
    ensures !Attempt(s, current, u, analyzes, AtMakingRoot).ok
    ensures StripAll(PackageAfter(s, current, u, analyzes, AtMakingRoot)) != StripAll(s.package)
  {
    PruneKeepsTheNewest(Stored(s.archive, current, s.package.value, u.archivedAt), u.order, current.fingerprint);
    StripOverlay(PackageOf(DirectoryOf(s.archive, current.fingerprint)), s.package.value);
  }

  /** Whenever the condition does not hold there is a failure that the update does not recover from. */
  lemma NotRecoverable(s: State, current: Record, u: Update, analyzes: Analysis) returns (fault: Fault)
    requires Ready(s, current, u, analyzes) && !Recoverable(s, current, u, analyzes)
    ensures Plausible(s, current, u, fault) && !Attempt(s, current, u, analyzes, fault).ok
    ensures StripAll(PackageAfter(s, current, u, analyzes, fault)) != StripAll(s.package)
  {
    if s.package.None? || !analyzes(s.package.value) {
      fault := AtStaging;
    } else if DirectoryOf(s.archive, current.fingerprint).snapshot.Some? {
      fault := BrokenCopyIsRestored(s, current, u, analyzes);
    } else {
      fault := AtMakingRoot;
      RemovedPackageIsNotRestored(s, current, u, analyzes);
    }
  }

  /**
   Updating is all or nothing: after a failure at any step, whatever it left behind, records, trust, profiles
   and package files are as before, if and only if the condition on the archive and the clock holds.
   */
  lemma UpdateIsAllOrNothing(s: State, current: Record, u: Update, analyzes: Analysis)
    requires Ready(s, current, u, analyzes)
    ensures Recoverable(s, current, u, analyzes) <==>
              forall fault :: Plausible(s, current, u, fault) && RunUpdate(s, u, analyzes, fault).1.Err? ==>
                SamePlugin(RunUpdate(s, u, analyzes, fault).0, s)
  {
    if Recoverable(s, current, u, analyzes) {
      forall fault | Plausible(s, current, u, fault) && RunUpdate(s, u, analyzes, fault).1.Err?
        ensures SamePlugin(RunUpdate(s, u, analyzes, fault).0, s)
      {
        RecordsOfAttempt(s, current, u, analyzes, fault);
        DocumentsRecover(s, Attempt(s, current, u, analyzes, fault).state, current, u);
        PackageRecovers(s, current, u, analyzes, fault);
      }
    } else {
      var fault := NotRecoverable(s, current, u, analyzes);
      assert !SamePlugin(RunUpdate(s, u, analyzes, fault).0, s);
    }
  }

  /** In the usual case - the current version is not archived yet and the clock has moved on - the condition holds. */
  lemma UsualUpdatesAreRecoverable(s: State, current: Record, u: Update, analyzes: Analysis)
    requires Ready(s, current, u, analyzes) && current.fingerprint !in s.archive
    requires forall g :: g in s.archive && IsVersion(s.archive[g]) ==> TimeOf(s.archive, g) < u.archivedAt
    ensures Recoverable(s, current, u, analyzes)
  {
    if s.package.Some? && analyzes(s.package.value) {
      LatestSurvives(Stored(s.archive, current, s.package.value, u.archivedAt), u.order, current.fingerprint);
    }
  }

  /** The archiving is done when it fails. */
  predicate FailsPastArchiving(fault: Fault)
  {
    || fault.AtRemoving? || fault.AtMakingRoot? || fault.AtCopying?
    || fault.AtRecords? || fault.AtTrust? || fault.AtProfiles? || fault.AtAudit?
  }

  /**
   The condition does fail in use. An update that fails past archiving and is recovered leaves the version
   in the archive, so the next attempt is not recoverable - as long as the restored package analyses, and
   so long only: otherwise the attempt stops at the analysis.
   */
  lemma RetryIsNotRecoverable(s: State, current: Record, u: Update, analyzes: Analysis, fault: Fault, retry: Update)
    requires Ready(s, current, u, analyzes) && Recoverable(s, current, u, analyzes) && FailsPastArchiving(fault)
    requires s.package.Some? && analyzes(s.package.value)
    ensures var (s', result) := RunUpdate(s, u, analyzes, fault);
            && result.Err? && SamePlugin(s', s)
            && s'.package == Some(PackageOf(DirectoryOf(s.archive, current.fingerprint)) + Strip(s.package.value))
            && (Recoverable(s', current, retry, analyzes) <==> !analyzes(s'.package.value))
  {
    RecordsOfAttempt(s, current, u, analyzes, fault);
    DocumentsRecover(s, Attempt(s, current, u, analyzes, fault).state, current, u);
    PackageRecovers(s, current, u, analyzes, fault);
    RecoveredFromArchive(s, current, u, analyzes, fault);
  }

  lemma RecoveredFromArchive(s: State, current: Record, u: Update, analyzes: Analysis, fault: Fault)
    requires Ready(s, current, u, analyzes) && Recoverable(s, current, u, analyzes) && FailsPastArchiving(fault)
    requires s.package.Some? && analyzes(s.package.value)
    ensures var t := Attempt(s, current, u, analyzes, fault);
            var merged := PackageOf(DirectoryOf(s.archive, current.fingerprint)) + Strip(s.package.value);
            && !t.ok && GetVersion(t.state.archive, current.fingerprint) == Some((merged, current))
  {
    ArchiveOfAttempt(s, current, u, analyzes, fault);
    ArchivedVersionIsFound(s, current, u.archivedAt, u.order);
  }

  lemma ArchiveOfAttempt(s: State, current: Record, u: Update, analyzes: Analysis, fault: Fault)
    requires s.package.Some? && analyzes(s.package.value) && FailsPastArchiving(fault)
    ensures var t := Attempt(s, current, u, analyzes, fault);
            !t.ok && t.state.archive == Archived(s.archive, current, s.package.value, u.archivedAt, u.order)
  {
  }

  // ----- Rolling back -----

  /** What is left over in the directory into which the current version is archived. */
  function Leftovers(s: State, current: Record): Package { PackageOf(DirectoryOf(s.archive, current.fingerprint)) }

  /** The version being archived is the one that pruning keeps. */
  predicate Survives(s: State, current: Record, archivedAt: Time, order: seq<Fingerprint>)
    requires s.package.Some?
  {
    Survivor(Stored(s.archive, current, s.package.value, archivedAt), order) == Some(current.fingerprint)
  }

  /** An exchange that failed nowhere. */
  predicate Exchanged(s: State, s': State, current: Record, files: Package, r: Record, archivedAt: Time, order: seq<Fingerprint>)
  {
    && s.package.Some? && s'.package == Some(files) && current.id == r.id
    && s'.docs.records == Replace(s.docs.records, r.id, r)
    && s'.archive == Archived(s.archive, current, s.package.value, archivedAt, order)
  }

  lemma ArchivedVersionIsFound(s: State, current: Record, archivedAt: Time, order: seq<Fingerprint>)
    requires s.package.Some? && Lists(order, Stored(s.archive, current, s.package.value, archivedAt))
    ensures GetVersion(Archived(s.archive, current, s.package.value, archivedAt, order), current.fingerprint) ==
            if Survives(s, current, archivedAt, order) then Some((Leftovers(s, current) + Strip(s.package.value), current)) else None
  {
    PruneKeepsTheNewest(Stored(s.archive, current, s.package.value, archivedAt), order, current.fingerprint);
  }

  /** Rolling back to the version that an exchange has replaced. */
  lemma RollbackAfterExchange(s: State, s': State, current: Record, files: Package, r: Record, archivedAt: Time,
                              order: seq<Fingerprint>, back: Rollback, analyzes: Analysis)
    requires Exchanged(s, s', current, files, r, archivedAt, order) && Find(s.docs.records, current.id) == Some(current)
    requires Lists(order, Stored(s.archive, current, s.package.value, archivedAt))
    requires back.id == current.id && back.fingerprint == current.fingerprint
    ensures RunRollback(s', back, analyzes, NoFault).1.Ok? <==>
              current.trust == Trusted && Survives(s, current, archivedAt, order) && analyzes(files)
    ensures RunRollback(s', back, analyzes, NoFault).1.Ok? ==>
              && RunRollback(s', back, analyzes, NoFault).0.package == Some(Leftovers(s, current) + Strip(s.package.value))
              && RunRollback(s', back, analyzes, NoFault).0.docs.records ==
                 Replace(s.docs.records, current.id, Restored(current, back.now))
  {
    ArchivedVersionIsFound(s, current, archivedAt, order);
    FindReplaced(s.docs.records, current.id, r);
    ReplaceTwice(s.docs.records, current.id, r, Restored(current, back.now));
  }

  lemma UpdateExchanges(s: State, current: Record, u: Update, analyzes: Analysis)
    requires Ready(s, current, u, analyzes) && RunUpdate(s, u, analyzes, NoFault).1.Ok?
    ensures Exchanged(s, RunUpdate(s, u, analyzes, NoFault).0, current, Strip(u.prepared), NextRecord(current, u), u.archivedAt, u.order)
  {
    FoundIds(s.docs.records, u.id);
  }

  /** The files are back but for leftovers, and the record but for its times and its error states. */
  predicate IsBack(s: State, s': State, current: Record, now: Time)
  {
    && s'.docs.records == Replace(s.docs.records, current.id, Restored(current, now))
    && StripAll(s'.package) == StripAll(s.package)
  }

  /** Rolling back an update restores files and record, exactly when the old version was trusted, archived cleanly and kept. */
  lemma RollbackUndoesUpdate(s: State, current: Record, u: Update, back: Rollback, analyzes: Analysis)
    requires Ready(s, current, u, analyzes) && RunUpdate(s, u, analyzes, NoFault).1.Ok?
    requires back.id == u.id && back.fingerprint == current.fingerprint
    ensures var (s', result) := RunRollback(RunUpdate(s, u, analyzes, NoFault).0, back, analyzes, NoFault);
            (result.Ok? && IsBack(s, s', current, back.now)) <==>
              && current.trust == Trusted && Survives(s, current, u.archivedAt, u.order) && analyzes(Strip(u.prepared))
              && Strip(Leftovers(s, current)).Keys <= Strip(s.package.value).Keys
  {
    var s1 := RunUpdate(s, u, analyzes, NoFault).0;
    UpdateExchanges(s, current, u, analyzes);
    FoundIds(s.docs.records, u.id);
    RollbackAfterExchange(s, s1, current, Strip(u.prepared), NextRecord(current, u), u.archivedAt, u.order, back, analyzes);
    StripOverlay(Leftovers(s, current), s.package.value);
  }

  /** Everything that `rollbackPluginVersion` checks, and the archive read completely. */
  predicate RollbackReady(s: State, current: Record, version: (Package, Record), r: Rollback, analyzes: Analysis)
  {
    && Find(s.docs.records, r.id) == Some(current) && current.id == r.id && s.package.Some? && analyzes(s.package.value)
    && GetVersion(s.archive, r.fingerprint) == Some(version) && version.1.trust == Trusted && version.1.id == r.id
    && Lists(r.order, Stored(s.archive, current, s.package.value, r.archivedAt))
  }

  lemma RollbackExchanges(s: State, current: Record, version: (Package, Record), r: Rollback, analyzes: Analysis)
    requires RollbackReady(s, current, version, r, analyzes)
    ensures RunRollback(s, r, analyzes, NoFault).1 == Ok(Restored(version.1, r.now))
    ensures Exchanged(s, RunRollback(s, r, analyzes, NoFault).0, current, version.0, Restored(version.1, r.now), r.archivedAt, r.order)
  {
  }

  /**
   Rollback undoes rollback, although archiving the outgoing version deletes the one being restored: going
   to another version and back restores files and record, exactly under the same kind of condition.
   */
  lemma RollbackUndoesRollback(s: State, current: Record, version: (Package, Record), r: Rollback, back: Rollback, analyzes: Analysis)
    requires RollbackReady(s, current, version, r, analyzes)
    requires back.id == r.id && back.fingerprint == current.fingerprint
    ensures var (s', result) := RunRollback(RunRollback(s, r, analyzes, NoFault).0, back, analyzes, NoFault);
            (result.Ok? && IsBack(s, s', current, back.now)) <==>
              && current.trust == Trusted && Survives(s, current, r.archivedAt, r.order) && analyzes(version.0)
              && Strip(Leftovers(s, current)).Keys <= Strip(s.package.value).Keys
  {
    var s1 := RunRollback(s, r, analyzes, NoFault).0;
    RollbackExchanges(s, current, version, r, analyzes);
    RollbackAfterExchange(s, s1, current, version.0, Restored(version.1, r.now), r.archivedAt, r.order, back, analyzes);
    StripOverlay(Leftovers(s, current), s.package.value);
  }

  /** After a rollback on a clock that has moved on, the archive holds one version: the outgoing one. */
  lemma RollbackLeavesOneVersion(s: State, current: Record, version: (Package, Record), r: Rollback, analyzes: Analysis, g: Fingerprint)
    requires RollbackReady(s, current, version, r, analyzes)
    requires forall h :: h in s.archive && h != current.fingerprint && IsVersion(s.archive[h]) ==> TimeOf(s.archive, h) < r.archivedAt
    ensures GetVersion(RunRollback(s, r, analyzes, NoFault).0.archive, g).Some? <==> g == current.fingerprint
  {
    RollbackExchanges(s, current, version, r, analyzes);
    ArchiveHoldsOneVersion(s.archive, current, s.package.value, r.archivedAt, r.order, g);
  }

  // ----- A rollback that fails is not recovered -----

  /** The package directory after a failure behind the archiving: what the failed step left, or the restored files. */
  function LeftBehind(fault: Fault, files: Package): Option<Package>
    requires FailsPastArchiving(fault)
  {
    match fault
    case AtRemoving(left) => left
    case AtMakingRoot => None
    case AtCopying(left) => left
    case _ => Some(files)
  }

  /** The failure comes before the record is replaced. */
  predicate KeepsRecord(fault: Fault) { fault.AtRemoving? || fault.AtMakingRoot? || fault.AtCopying? || fault.AtRecords? }

  function RecordLeft(current: Record, version: (Package, Record), r: Rollback, fault: Fault): Record
  {
    if KeepsRecord(fault) then current else Restored(version.1, r.now)
  }

  /** A package that is missing, or too partial to be accepted. */
  predicate IsBroken(left: Option<Package>, analyzes: Analysis) { left.None? || !analyzes(left.value) }

  lemma StateAfterFailure(s: State, current: Record, version: (Package, Record), r: Rollback, analyzes: Analysis, fault: Fault)
    returns (s1: State)
    requires RollbackReady(s, current, version, r, analyzes) && FailsPastArchiving(fault)
    ensures s1 == RunRollback(s, r, analyzes, fault).0
    ensures s1.package == LeftBehind(fault, version.0)
    ensures s1.archive == Archived(s.archive, current, s.package.value, r.archivedAt, r.order)
    ensures KeepsRecord(fault) ==> s1.docs == s.docs
    ensures !KeepsRecord(fault) ==> s1.docs.records == Replace(s.docs.records, r.id, Restored(version.1, r.now))
    ensures Find(s1.docs.records, r.id) == Some(RecordLeft(current, version, r, fault))
  {
    s1 := RunRollback(s, r, analyzes, fault).0;
    FindReplaced(s.docs.records, r.id, Restored(version.1, r.now));
  }

  /** The outgoing version is the only one left. */
  lemma OnlyOutgoingIsLeft(s: State, current: Record, archivedAt: Time, order: seq<Fingerprint>, f: Fingerprint)
    requires s.package.Some? && Lists(order, Stored(s.archive, current, s.package.value, archivedAt))
    requires Survives(s, current, archivedAt, order) && f != current.fingerprint
    ensures GetVersion(Archived(s.archive, current, s.package.value, archivedAt, order), f) == None
  {
    var stored := Stored(s.archive, current, s.package.value, archivedAt);
    if f in stored { PruneKeepsTheNewest(stored, order, f); }
  }

  /**
   A rollback back to the outgoing version after any failure behind the archiving. It can succeed with files
   of one version under the record of the other; the archive then takes up those files under that record.
   */
  lemma RetryAfterFailedRollback(s: State, current: Record, version: (Package, Record), r: Rollback, analyzes: Analysis,
                                 fault: Fault, back: Rollback)
    requires RollbackReady(s, current, version, r, analyzes) && Survives(s, current, r.archivedAt, r.order) && FailsPastArchiving(fault)
    requires back.id == r.id && back.fingerprint == current.fingerprint
    ensures var s1 := RunRollback(s, r, analyzes, fault).0;
            var (s2, result) := RunRollback(s1, back, analyzes, NoFault);
            var left := LeftBehind(fault, version.0);
            && (result.Ok? <==> current.trust == Trusted && !IsBroken(left, analyzes))
            && (result.Ok? ==>
                  && s2.package == Some(Leftovers(s, current) + Strip(s.package.value))
                  && s2.docs.records == Replace(s.docs.records, current.id, Restored(current, back.now))
                  && s2.archive == Archived(s1.archive, RecordLeft(current, version, r, fault), left.value, back.archivedAt, back.order))
  {
    var s1 := StateAfterFailure(s, current, version, r, analyzes, fault);
    ArchivedVersionIsFound(s, current, r.archivedAt, r.order);
    ReplaceTwice(s.docs.records, current.id, Restored(version.1, r.now), Restored(current, back.now));
  }

  lemma OverlayChangesNothing(base: Package, over: Package)
    ensures base + over == base <==> forall f :: f in over ==> f in base && base[f] == over[f]
  {
    if base + over == base {
      forall f | f in over ensures f in base && base[f] == over[f] { assert f in base + over && (base + over)[f] == over[f]; }
    }
  }

  /**
   With the outgoing record still in place such a retry lays the files that it found over the snapshot of the
   outgoing version: the plugin is back, and its archived version is intact only if those files change nothing.
   */
  lemma RetryMixesTheArchive(s: State, current: Record, version: (Package, Record), r: Rollback, analyzes: Analysis,
                             fault: Fault, back: Rollback)
    requires RollbackReady(s, current, version, r, analyzes) && Survives(s, current, r.archivedAt, r.order) && FailsPastArchiving(fault)
    requires back.id == r.id && back.fingerprint == current.fingerprint && KeepsRecord(fault)
    requires var s1 := RunRollback(s, r, analyzes, fault).0;
             && RunRollback(s1, back, analyzes, NoFault).1.Ok? && s1.package.Some?
             && Lists(back.order, Stored(s1.archive, current, s1.package.value, back.archivedAt))
             && Survives(s1, current, back.archivedAt, back.order)
    ensures var s2 := RunRollback(RunRollback(s, r, analyzes, fault).0, back, analyzes, NoFault).0;
            var outgoing := Leftovers(s, current) + Strip(s.package.value);
            var found := Strip(LeftBehind(fault, version.0).value);
            && GetVersion(s2.archive, current.fingerprint) == Some((outgoing + found, current))
            && (outgoing + found == outgoing <==> forall f :: f in found ==> f in outgoing && outgoing[f] == found[f])
  {
    var s1 := StateAfterFailure(s, current, version, r, analyzes, fault);
    RetryAfterFailedRollback(s, current, version, r, analyzes, fault, back);
    ArchivedVersionIsFound(s, current, r.archivedAt, r.order);
    ArchivedVersionIsFound(s1, current, back.archivedAt, back.order);
    assert Leftovers(s1, current) == Leftovers(s, current) + Strip(s.package.value);
    OverlayChangesNothing(Leftovers(s1, current), Strip(s1.package.value));
  }

  lemma BrokenPackageStops(s1: State, later: Rollback, analyzes: Analysis, again: Fault)
    requires IsBroken(s1.package, analyzes)
    ensures RunRollback(s1, later, analyzes, again).1.Err? && RunRollback(s1, later, analyzes, again).0 == s1
  {
  }

  lemma UnusableVersionStops(s1: State, later: Rollback, analyzes: Analysis, again: Fault)
    requires var version := GetVersion(s1.archive, later.fingerprint); version.None? || version.value.1.trust != Trusted
    ensures RunRollback(s1, later, analyzes, again).1.Err? && RunRollback(s1, later, analyzes, again).0 == s1
  {
  }

  lemma LaterRollbackFails(s: State, current: Record, version: (Package, Record), r: Rollback, analyzes: Analysis,
                           fault: Fault, later: Rollback, again: Fault)
    requires RollbackReady(s, current, version, r, analyzes) && Survives(s, current, r.archivedAt, r.order) && FailsPastArchiving(fault)
    requires IsBroken(LeftBehind(fault, version.0), analyzes) || current.trust != Trusted
    ensures var s1 := RunRollback(s, r, analyzes, fault).0;
            RunRollback(s1, later, analyzes, again).1.Err? && RunRollback(s1, later, analyzes, again).0 == s1
  {
    var s1 := StateAfterFailure(s, current, version, r, analyzes, fault);
    if IsBroken(LeftBehind(fault, version.0), analyzes) {
      BrokenPackageStops(s1, later, analyzes, again);
    } else {
      ArchivedVersionIsFound(s, current, r.archivedAt, r.order);
      if later.fingerprint != current.fingerprint {
        OnlyOutgoingIsLeft(s, current, r.archivedAt, r.order, later.fingerprint);
      }
      UnusableVersionStops(s1, later, analyzes, again);
    }
  }

  /**
   After a failure behind the archiving the version that was to be restored is gone from the archive. The plugin
   is then stuck - no later rollback succeeds or changes anything - if and only if the package that is left
   is broken, at which archiving stops, or the outgoing version is not trusted.
   */
  lemma FailedRollbackIsStuckExactly(s: State, current: Record, version: (Package, Record), r: Rollback, analyzes: Analysis, fault: Fault)
    requires RollbackReady(s, current, version, r, analyzes) && Survives(s, current, r.archivedAt, r.order) && FailsPastArchiving(fault)
    ensures var s1 := RunRollback(s, r, analyzes, fault).0;
            var left := LeftBehind(fault, version.0);
            && (KeepsRecord(fault) ==> s1.docs == s.docs) && s1.package == left
            && (r.fingerprint != current.fingerprint ==> GetVersion(s1.archive, r.fingerprint) == None)
            && ((forall later, again :: RunRollback(s1, later, analyzes, again).1.Err? && RunRollback(s1, later, analyzes, again).0 == s1)
                <==> IsBroken(left, analyzes) || current.trust != Trusted)
  {
    var s1 := StateAfterFailure(s, current, version, r, analyzes, fault);
    if r.fingerprint != current.fingerprint { OnlyOutgoingIsLeft(s, current, r.archivedAt, r.order, r.fingerprint); }
    if IsBroken(LeftBehind(fault, version.0), analyzes) || current.trust != Trusted {
      forall later, again
        ensures RunRollback(s1, later, analyzes, again).1.Err? && RunRollback(s1, later, analyzes, again).0 == s1
      {
        LaterRollbackFails(s, current, version, r, analyzes, fault, later, again);
      }
    } else {
      var back := Rollback(r.id, current.fingerprint, r.archivedAt, r.now, r.order);
      RetryAfterFailedRollback(s, current, version, r, analyzes, fault, back);
      assert RunRollback(s1, back, analyzes, NoFault).1.Ok?;
    }
  }

  /**
   With a broken package and the outgoing record in place, an update fails as well, and its recovery path
   brings the outgoing version back.
   */
  lemma FailedUpdateHealsAFailedRollback(s: State, current: Record, version: (Package, Record), r: Rollback, analyzes: Analysis,
                                         fault: Fault, u: Update, again: Fault)
    requires RollbackReady(s, current, version, r, analyzes) && Survives(s, current, r.archivedAt, r.order)
    requires FailsPastArchiving(fault) && KeepsRecord(fault) && IsBroken(LeftBehind(fault, version.0), analyzes)
    requires UniqueIds(s.docs.records) && u.id == r.id && u.expected == current.fingerprint
    requires current.packageName == u.scan.packageName && Strip(Leftovers(s, current)).Keys <= Strip(s.package.value).Keys
    ensures var (s', result) := RunUpdate(RunRollback(s, r, analyzes, fault).0, u, analyzes, again);
            result == Err(StepFailed) && SamePlugin(s', s)
  {
    var s1 := StateAfterFailure(s, current, version, r, analyzes, fault);
    ArchivedVersionIsFound(s, current, r.archivedAt, r.order);
    StripOverlay(Leftovers(s, current), s.package.value);
    RecordsOfAttempt(s1, current, u, analyzes, again);
    DocumentsRecover(s1, Attempt(s1, current, u, analyzes, again).state, current, u);
  }

  /** Once the record is replaced it does not: the restored version is not in the archive, so the update recovers nothing. */
  lemma FailedUpdateAfterLateFailure(s: State, current: Record, version: (Package, Record), r: Rollback, analyzes: Analysis,
                                     fault: Fault, u: Update, again: Fault)
    requires RollbackReady(s, current, version, r, analyzes) && Survives(s, current, r.archivedAt, r.order)
    requires FailsPastArchiving(fault) && !KeepsRecord(fault) && !analyzes(version.0)
    requires UniqueIds(s.docs.records) && u.id == r.id && u.expected == version.1.fingerprint != current.fingerprint
    requires version.1.packageName == u.scan.packageName
    ensures var s1 := RunRollback(s, r, analyzes, fault).0;
            var (s', result) := RunUpdate(s1, u, analyzes, again);
            result == Err(StepFailed) && SamePlugin(s', s1)
  {
    var s1 := StateAfterFailure(s, current, version, r, analyzes, fault);
    var restored := Restored(version.1, r.now);
    OnlyOutgoingIsLeft(s, current, r.archivedAt, r.order, version.1.fingerprint);
    ReplaceKeepsUnique(s.docs.records, r.id, restored);
    RecordsOfAttempt(s1, restored, u, analyzes, again);
    DocumentsRecover(s1, Attempt(s1, restored, u, analyzes, again).state, restored, u);
  }

  lemma {:induction false} ReplaceKeepsUnique(records: seq<Record>, id: PluginId, r: Record)
    requires UniqueIds(records) && r.id == id
    ensures UniqueIds(Replace(records, id, r))
  {
    if records != [] {
      ReplaceKeepsUnique(records[1..], id, r);
      ReplaceKeepsIds(records[1..], id, r);
      var (first, rest) := (if records[0].id == id then r else records[0], Replace(records[1..], id, r));
      assert ([first] + rest)[1..] == rest;
    }
  }

  /** Wherever a rollback fails, the outgoing package is still in place or in the archive. */
  lemma RollbackNeverLosesTheOutgoingVersion(s: State, current: Record, version: (Package, Record), r: Rollback,
                                             analyzes: Analysis, fault: Fault)
    requires RollbackReady(s, current, version, r, analyzes) && Survives(s, current, r.archivedAt, r.order)
    requires fault.AtPruning? ==> PartialPrune(Stored(s.archive, current, s.package.value, r.archivedAt), r.order, fault.archive)
    ensures var s' := RunRollback(s, r, analyzes, fault).0;
            || s'.package == s.package
            || GetVersion(s'.archive, current.fingerprint) == Some((Leftovers(s, current) + Strip(s.package.value), current))
  {
    ArchivedVersionIsFound(s, current, r.archivedAt, r.order);
  }

  // ----- What exactly a failed rollback leaves -----

  /** Every active profile lists the plugin, nothing twice, with this time. */
  predicate ActiveProfilesList(profiles: seq<Profile>, id: PluginId, now: Time)
  {
    profiles == [] ||
    ((profiles[0].active ==> ListsOnce(profiles[0].pluginIds, id, {}) && profiles[0].updatedAt == now) &&
     ActiveProfilesList(profiles[1..], id, now))
  }

  predicate ListsOnce(ids: seq<PluginId>, id: PluginId, seen: set<PluginId>)
  {
    if ids == [] then id in seen else ids[0] !in seen && ListsOnce(ids[1..], id, seen + {ids[0]})
  }

  lemma {:induction false} IncludeChangesNothing(ids: seq<PluginId>, id: PluginId, seen: set<PluginId>)
    ensures Include(ids, id, seen) == ids <==> ListsOnce(ids, id, seen)
    ensures forall i :: 0 <= i < |Include(ids, id, seen)| ==> Include(ids, id, seen)[i] !in seen
  {
    if ids != [] {
      if ids[0] in seen {
        IncludeChangesNothing(ids[1..], id, seen);
      } else {
        var rest := Include(ids[1..], id, seen + {ids[0]});
        IncludeChangesNothing(ids[1..], id, seen + {ids[0]});
        assert ([ids[0]] + rest)[1..] == rest && ids == [ids[0]] + ids[1..];
      }
    }
  }

  lemma {:induction false} IncludingChangesNothing(profiles: seq<Profile>, id: PluginId, now: Time)
    ensures IncludeInActive(profiles, id, now) == profiles <==> ActiveProfilesList(profiles, id, now)
  {
    if profiles != [] {
      var p := profiles[0];
      IncludeChangesNothing(p.pluginIds, id, {});
      IncludingChangesNothing(profiles[1..], id, now);
      var rest := IncludeInActive(profiles[1..], id, now);
      var first := if p.active then p.(pluginIds := Include(p.pluginIds, id), updatedAt := now) else p;
      assert ([first] + rest)[1..] == rest && profiles == [p] + profiles[1..];
    }
  }

  lemma {:induction false} IncludedAreInstalled(ids: seq<PluginId>, id: PluginId, seen: set<PluginId>, installed: set<PluginId>)
    requires Installed(ids, installed) == ids && id in installed
    ensures Installed(Include(ids, id, seen), installed) == Include(ids, id, seen)
  {
    if ids != [] {
      assert ids[0] in installed by { InstalledHead(ids, installed); }
      InstalledHead(ids, installed);
      IncludedAreInstalled(ids[1..], id, seen, installed);
      IncludedAreInstalled(ids[1..], id, seen + {ids[0]}, installed);
      var rest := Include(ids[1..], id, seen + {ids[0]});
      assert ([ids[0]] + rest)[1..] == rest;
    }
  }

  lemma {:induction false} InstalledIsShorter(ids: seq<PluginId>, installed: set<PluginId>)
    ensures |Installed(ids, installed)| <= |ids|
  {
    if ids != [] { InstalledIsShorter(ids[1..], installed); }
  }

  lemma InstalledHead(ids: seq<PluginId>, installed: set<PluginId>)
    requires ids != [] && Installed(ids, installed) == ids
    ensures ids[0] in installed && Installed(ids[1..], installed) == ids[1..]
  {
    InstalledIsShorter(ids[1..], installed);
  }

  /** Profiles that were written by a rollback are read as they were written. */
  lemma {:induction false} IncludedAreRead(profiles: seq<Profile>, id: PluginId, now: Time, installed: set<PluginId>)
    requires id in installed
    ensures Readable(IncludeInActive(Readable(profiles, installed), id, now), installed) ==
            IncludeInActive(Readable(profiles, installed), id, now)
  {
    if profiles != [] {
      var p := profiles[0].(pluginIds := Installed(profiles[0].pluginIds, installed));
      InstalledTwice(profiles[0].pluginIds, installed);
      IncludedAreInstalled(p.pluginIds, id, {}, installed);
      IncludedAreRead(profiles[1..], id, now, installed);
      var read := Readable(profiles[1..], installed);
      assert ([p] + read)[1..] == read;
      var first := if p.active then p.(pluginIds := Include(p.pluginIds, id), updatedAt := now) else p;
      var rest := IncludeInActive(read, id, now);
      assert ([first] + rest)[1..] == rest;
    }
  }

  lemma {:induction false} ReplaceKeepsIds(records: seq<Record>, id: PluginId, r: Record)
    requires r.id == id
    ensures Ids(Replace(records, id, r)) == Ids(records)
  {
    if records != [] { ReplaceKeepsIds(records[1..], id, r); }
  }

  lemma {:induction false} ReplaceChangesNothing(records: seq<Record>, id: PluginId, r: Record)
    requires UniqueIds(records) && Find(records, id).Some?
    ensures Replace(records, id, r) == records <==> Find(records, id) == Some(r)
  {
    if records[0].id == id {
      ReplaceAbsent(records[1..], id, r);
    } else {
      ReplaceChangesNothing(records[1..], id, r);
      var rest := Replace(records[1..], id, r);
      assert ([records[0]] + rest)[1..] == rest && records == [records[0]] + records[1..];
    }
  }

  /** When a rollback that fails leaves the plugin as it was, fault by fault. */
  predicate RollbackIsHarmless(s: State, current: Record, version: (Package, Record), r: Rollback, fault: Fault)
  {
    var restored := Restored(version.1, r.now);
    var sameFiles := Some(Strip(version.0)) == StripAll(s.package);
    var sameTrust := r.id in s.docs.trust && s.docs.trust[r.id] == TrustEntry(restored.fingerprint, restored.trust, r.now);
    match fault
    case AtRemoving(left) => StripAll(left) == StripAll(s.package)
    case AtMakingRoot => false
    case AtCopying(left) => StripAll(left) == StripAll(s.package)
    case AtRecords => sameFiles
    case AtTrust => sameFiles && restored == current
    case AtProfiles => sameFiles && restored == current && sameTrust
    case AtAudit => sameFiles && restored == current && sameTrust && ActiveProfilesList(ReadProfiles(s.docs), r.id, r.now)
    case _ => true
  }

  /** What the document updates of a rollback change, up to the one that fails. */
  lemma DocumentsAfterRollback(d: Documents, current: Record, restored: Record, id: PluginId, now: Time, fault: Fault)
    requires UniqueIds(d.records) && Find(d.records, id) == Some(current) && restored.id == id
    ensures var d' := WriteDocuments(d, restored, id, restored.trust, true, now, fault).state;
            (d'.records == d.records && d'.trust == d.trust && ReadProfiles(d') == ReadProfiles(d)) <==>
              match fault
              case AtRecords => true
              case AtTrust => restored == current
              case AtProfiles => restored == current && id in d.trust && d.trust[id] == TrustEntry(restored.fingerprint, restored.trust, now)
              case _ =>
                && restored == current && id in d.trust && d.trust[id] == TrustEntry(restored.fingerprint, restored.trust, now)
                && ActiveProfilesList(ReadProfiles(d), id, now)
  {
    FoundIds(d.records, id);
    ReplaceKeepsIds(d.records, id, restored);
    ReplaceChangesNothing(d.records, id, restored);
    IncludedAreRead(d.profiles, id, now, Ids(d.records));
    IncludingChangesNothing(ReadProfiles(d), id, now);
  }

  /**
   A rollback that fails is harmless exactly so: at every step before the deletion, whatever it leaves in
   the archive; afterwards only if the step left what had been there. There is no recovery path.
   */
  lemma FailedRollbackIsHarmlessExactly(s: State, current: Record, version: (Package, Record), r: Rollback, analyzes: Analysis,
                                        fault: Fault)
    requires RollbackReady(s, current, version, r, analyzes) && UniqueIds(s.docs.records)
    requires RunRollback(s, r, analyzes, fault).1.Err?
    ensures SamePlugin(RunRollback(s, r, analyzes, fault).0, s) <==> RollbackIsHarmless(s, current, version, r, fault)
  {
    var restored := Restored(version.1, r.now);
    if fault.AtRecords? || fault.AtTrust? || fault.AtProfiles? || fault.AtAudit? {
      DocumentsAfterRollback(s.docs, current, restored, r.id, r.now, fault);
      FailedDocuments(s, current, version, r, analyzes, fault);
    }
  }

  lemma FailedDocuments(s: State, current: Record, version: (Package, Record), r: Rollback, analyzes: Analysis, fault: Fault)
    requires RollbackReady(s, current, version, r, analyzes)
    requires fault.AtRecords? || fault.AtTrust? || fault.AtProfiles? || fault.AtAudit?
    ensures var s' := RunRollback(s, r, analyzes, fault).0;
            var restored := Restored(version.1, r.now);
            && s'.docs == WriteDocuments(s.docs, restored, r.id, restored.trust, true, r.now, fault).state
            && s'.package == Some(version.0)
  {
  }

  /**
   On a clock that has moved on since the record was written, no failure among the documents but the first
   leaves the plugin as it was.
   */
  lemma LateFailuresAreNeverHarmless(s: State, current: Record, version: (Package, Record), r: Rollback, analyzes: Analysis,
                                     fault: Fault)
    requires RollbackReady(s, current, version, r, analyzes) && UniqueIds(s.docs.records)
    requires current.updatedAt < r.now && (fault.AtTrust? || fault.AtProfiles? || fault.AtAudit?)
    ensures RunRollback(s, r, analyzes, fault).1.Err? && !SamePlugin(RunRollback(s, r, analyzes, fault).0, s)
  {
    FailedRollbackIsHarmlessExactly(s, current, version, r, analyzes, fault);
  }
}
