/**
 Updating a plugin and rolling it back, with a failure possible at every step.
 The state is one plugin's package directory and archive, and the three documents of the store.
 */
module PluginManager {
  import opened Results
  import opened PluginTypes
  import opened PluginVersions

  datatype State = State(docs: Documents, package: Option<Package>, archive: Archive)

  datatype Error = NotFound | Stale | NameChanged | VersionUnavailable | VersionNotTrusted | StepFailed

  /** What `analyzePluginDirectory` reports about a package that it accepts. */
  datatype Scan = Scan(
    packageName: string, version: string, contentHash: string, manifestHash: string, compatibility: string,
    presentation: Option<string>, nativePlugin: Option<string>, p2: Option<string>, dependencyLockHash: Option<string>)

  /** Which packages the analysis accepts. */
  type Analysis = Package -> bool

  /**
   Where an attempt fails, and what a step that fails half-way leaves behind. The audit entry comes last,
   so that everything else is done when it fails.
   */
  datatype Fault =
    | NoFault
    | AtStaging
    | AtStopping
    | AtArchiving(left: Option<Package>)
    | AtSnapshot
    | AtPruning(archive: Archive)
    | AtRemoving(left: Option<Package>)
    | AtMakingRoot
    | AtCopying(left: Option<Package>)
    | AtRecords
    | AtTrust
    | AtProfiles
    | AtAudit

  datatype Tried<S> = Tried(state: S, ok: bool)

  // ----- Documents -----

  function Find(records: seq<Record>, id: PluginId): Option<Record>
  {
    if records == [] then None else if records[0].id == id then Some(records[0]) else Find(records[1..], id)
  }

  function Replace(records: seq<Record>, id: PluginId, r: Record): seq<Record>
  {
    if records == [] then [] else [if records[0].id == id then r else records[0]] + Replace(records[1..], id, r)
  }

  function Exclude(ids: seq<PluginId>, id: PluginId): seq<PluginId>
  {
    if ids == [] then [] else (if ids[0] == id then [] else [ids[0]]) + Exclude(ids[1..], id)
  }

  /** A list followed by one more id, without repetitions. */
  function Include(ids: seq<PluginId>, id: PluginId, seen: set<PluginId> := {}): seq<PluginId>
  {
    if ids == [] then (if id in seen then [] else [id])
    else if ids[0] in seen then Include(ids[1..], id, seen)
    else [ids[0]] + Include(ids[1..], id, seen + {ids[0]})
  }

  function ExcludeEverywhere(profiles: seq<Profile>, id: PluginId, now: Time): seq<Profile>
  {
    if profiles == [] then []
    else [profiles[0].(pluginIds := Exclude(profiles[0].pluginIds, id), updatedAt := now)] + ExcludeEverywhere(profiles[1..], id, now)
  }

  function IncludeInActive(profiles: seq<Profile>, id: PluginId, now: Time): seq<Profile>
  {
    if profiles == [] then []
    else
      var p := profiles[0];
      [if p.active then p.(pluginIds := Include(p.pluginIds, id), updatedAt := now) else p] + IncludeInActive(profiles[1..], id, now)
  }

  /** The three updates of the documents that end an update or a rollback. */
  function WriteDocuments(d: Documents, r: Record, id: PluginId, trust: Trust, active: bool, now: Time, fault: Fault): Tried<Documents>
  {
    var d1 := d.(records := Replace(d.records, id, r));
    var d2 := d1.(trust := d1.trust[id := TrustEntry(r.fingerprint, trust, now)]);
    var profiles := if active then IncludeInActive(ReadProfiles(d2), id, now) else ExcludeEverywhere(ReadProfiles(d2), id, now);
    match fault
    case AtRecords => Tried(d, false)
    case AtTrust => Tried(d1, false)
    case AtProfiles => Tried(d2, false)
    case AtAudit => Tried(d2.(profiles := profiles), false)
    case _ => Tried(d2.(profiles := profiles), true)
  }

  // ----- Archiving -----

  /** `archivePluginVersion` with its failures; the package is analysed before anything is written. */
  function ArchiveStep(s: State, r: Record, now: Time, order: seq<Fingerprint>, analyzes: Analysis, fault: Fault): Tried<Archive>
  {
    if s.package.None? || !analyzes(s.package.value) then Tried(s.archive, false)
    else
      var d := DirectoryOf(s.archive, r.fingerprint);
      match fault
      case AtArchiving(left) => Tried(s.archive[r.fingerprint := d.(package := left)], false)
      case AtSnapshot => Tried(s.archive[r.fingerprint := d.(package := Some(PackageOf(d) + Strip(s.package.value)))], false)
      case AtPruning(left) => Tried(left, false)
      case _ => Tried(Archived(s.archive, r, s.package.value, now, order), true)
  }

  /** From archiving to the last document: the part that updates and rollbacks share. */
  function Exchange(s: State, current: Record, files: Package, r: Record, trust: Trust, active: bool, id: PluginId,
                    archivedAt: Time, now: Time, order: seq<Fingerprint>, analyzes: Analysis, fault: Fault): Tried<State>
  {
    var a := ArchiveStep(s, current, archivedAt, order, analyzes, fault);
    if fault.AtStaging? || fault.AtStopping? then Tried(s, false)
    else if !a.ok then Tried(s.(archive := a.state), false)
    else
      match fault
      case AtRemoving(left) => Tried(s.(archive := a.state, package := left), false)
      case AtMakingRoot => Tried(s.(archive := a.state, package := None), false)
      case AtCopying(left) => Tried(s.(archive := a.state, package := left), false)
      case _ =>
        var d := WriteDocuments(s.docs, r, id, trust, active, now, fault);
        Tried(State(d.state, Some(files), a.state), d.ok)
  }

  // ----- Updating -----

  datatype Update = Update(
    id: PluginId, expected: Fingerprint, source: string, prepared: Package, scan: Scan, fingerprint: Fingerprint,
    archivedAt: Time, now: Time, order: seq<Fingerprint>)

  function OrElse<T>(a: Option<T>, b: Option<T>): Option<T> { if a.Some? then a else b }

  function NextRecord(current: Record, u: Update): Record
  {
    current.(source := u.source, version := u.scan.version, contentHash := u.scan.contentHash,
             manifestHash := u.scan.manifestHash, fingerprint := u.fingerprint, compatibility := u.scan.compatibility,
             trust := ReviewRequired, enabled := false, updatedAt := u.now,
             presentation := OrElse(u.scan.presentation, current.presentation),
             nativePlugin := OrElse(u.scan.nativePlugin, current.nativePlugin),
             p2 := u.scan.p2,
             dependencyLockHash := OrElse(u.scan.dependencyLockHash, current.dependencyLockHash),
             lastError := None, isolation := None)
  }

  function Attempt(s: State, current: Record, u: Update, analyzes: Analysis, fault: Fault): Tried<State>
  {
    Exchange(s, current, Strip(u.prepared), NextRecord(current, u), ReviewRequired, false, u.id,
             u.archivedAt, u.now, u.order, analyzes, fault)
  }

  /** The recovery path: the archived version of the current record, and the documents read at the beginning. */
  function Recover(s: State, current: Record, before: Documents): State
  {
    var previous := GetVersion(s.archive, current.fingerprint);
    State(Documents(Replace(s.docs.records, current.id, current), before.trust, ReadProfiles(before)),
          if previous.Some? then Some(previous.value.0) else s.package,
          s.archive)
  }

  function RunUpdate(s: State, u: Update, analyzes: Analysis, fault: Fault): (State, Result<Record, Error>)
  {
    var current := Find(s.docs.records, u.id);
    if current.None? then (s, Err(NotFound))
    else if current.value.fingerprint != u.expected then (s, Err(Stale))
    else if current.value.packageName != u.scan.packageName then (s, Err(NameChanged))
    else
      var t := Attempt(s, current.value, u, analyzes, fault);
      if t.ok then (t.state, Ok(NextRecord(current.value, u))) else (Recover(t.state, current.value, s.docs), Err(StepFailed))
  }

  // ----- Rolling back -----

  datatype Rollback = Rollback(id: PluginId, fingerprint: Fingerprint, archivedAt: Time, now: Time, order: seq<Fingerprint>)

  function Restored(version: Record, now: Time): Record { version.(updatedAt := now, lastError := None, isolation := None) }

  function RunRollback(s: State, r: Rollback, analyzes: Analysis, fault: Fault): (State, Result<Record, Error>)
  {
    var current := Find(s.docs.records, r.id);
    var version := GetVersion(s.archive, r.fingerprint);
    if current.None? || version.None? then (s, Err(VersionUnavailable))
    else if version.value.1.trust != Trusted then (s, Err(VersionNotTrusted))
    else
      var restored := Restored(version.value.1, r.now);
      var t := Exchange(s, current.value, version.value.0, restored, restored.trust, true, r.id,
                        r.archivedAt, r.now, r.order, analyzes, fault);
      (t.state, if t.ok then Ok(restored) else Err(StepFailed))
  }

  /** The manager's state is on disk; methods change it step by step. */
  class Manager {
    var docs: Documents
    var package: Option<Package>
    var archive: Archive

    constructor (initial: State)
      ensures View() == initial
    {
      docs, package, archive := initial.docs, initial.package, initial.archive;
    }

    function View(): State
      reads this
    {
      State(docs, package, archive)
    }

    method ArchiveVersion(r: Record, now: Time, order: seq<Fingerprint>, analyzes: Analysis, fault: Fault) returns (ok: bool)
      modifies this`archive
      ensures Tried(archive, ok) == ArchiveStep(old(View()), r, now, order, analyzes, fault)
    {
      if package.None? || !analyzes(package.value) { return false; }
      var d := DirectoryOf(archive, r.fingerprint);
      if fault.AtArchiving? { archive := archive[r.fingerprint := d.(package := fault.left)]; return false; }
      d := d.(package := Some(PackageOf(d) + Strip(package.value)));
      ghost var before := archive;
      archive := archive[r.fingerprint := d];
      if fault.AtSnapshot? { return false; }
      archive := archive[r.fingerprint := d.(snapshot := Some(Snapshot(now, r)))];
      assert archive == Stored(before, r, package.value, now);
      if fault.AtPruning? { archive := fault.archive; return false; }
      DeleteOutdated(order);
      return true;
    }

    /** All versions but the first after sorting are deleted one by one. */
    method DeleteOutdated(order: seq<Fingerprint>)
      modifies this`archive
      ensures archive == Prune(old(archive), order)
    {
      ghost var before := archive;
      var versions := Listed(archive, order);
      var newest := Newest(archive, versions);
      ghost var kept := if newest.Some? then {newest.value} else {};
      for i := 0 to |versions|
        invariant archive == before - (Members(versions[..i]) - kept)
      {
        assert versions[..i + 1][..i] == versions[..i];
        if newest != Some(versions[i]) { archive := archive - {versions[i]}; }
      }
      assert versions[..|versions|] == versions;
    }

    method UpdateDocuments(r: Record, id: PluginId, trust: Trust, active: bool, now: Time, fault: Fault) returns (ok: bool)
      modifies this`docs
      ensures Tried(docs, ok) == WriteDocuments(old(docs), r, id, trust, active, now, fault)
    {
      if fault.AtRecords? { return false; }
      docs := docs.(records := Replace(docs.records, id, r));
      if fault.AtTrust? { return false; }
      docs := docs.(trust := docs.trust[id := TrustEntry(r.fingerprint, trust, now)]);
      if fault.AtProfiles? { return false; }
      var profiles := ReadProfiles(docs);
      docs := docs.(profiles := if active then IncludeInActive(profiles, id, now) else ExcludeEverywhere(profiles, id, now));
      return !fault.AtAudit?;
    }

    method ExchangePackage(current: Record, files: Package, r: Record, trust: Trust, active: bool, id: PluginId,
                           archivedAt: Time, now: Time, order: seq<Fingerprint>, analyzes: Analysis, fault: Fault)
      returns (ok: bool)
      modifies this
      ensures Tried(View(), ok) == Exchange(old(View()), current, files, r, trust, active, id, archivedAt, now, order, analyzes, fault)
    {
      if fault.AtStaging? || fault.AtStopping? { return false; }
      ok := ArchiveVersion(current, archivedAt, order, analyzes, fault);
      if !ok { return false; }
      if fault.AtRemoving? { package := fault.left; return false; }
      package := None;
      if fault.AtMakingRoot? { return false; }
      if fault.AtCopying? { package := fault.left; return false; }
      package := Some(files);
      ok := UpdateDocuments(r, id, trust, active, now, fault);
    }

    /** `updatePluginFromSource`. */
    method UpdateFromSource(u: Update, analyzes: Analysis, fault: Fault) returns (result: Result<Record, Error>)
      modifies this
      ensures (View(), result) == RunUpdate(old(View()), u, analyzes, fault)
    {
      var current := Find(docs.records, u.id);
      if current.None? { return Err(NotFound); }
      if current.value.fingerprint != u.expected { return Err(Stale); }
      var previousTrust, previousProfiles := docs.trust, ReadProfiles(docs);
      if current.value.packageName != u.scan.packageName { return Err(NameChanged); }
      var next := NextRecord(current.value, u);
      var ok := ExchangePackage(current.value, Strip(u.prepared), next, ReviewRequired, false, u.id,
                                u.archivedAt, u.now, u.order, analyzes, fault);
      if ok { return Ok(next); }
      var previous := GetVersion(archive, current.value.fingerprint);
      if previous.Some? { package := Some(previous.value.0); }
      docs := docs.(records := Replace(docs.records, current.value.id, current.value));
      docs := docs.(trust := previousTrust);
      docs := docs.(profiles := previousProfiles);
      return Err(StepFailed);
    }

    /** `rollbackPluginVersion`, which has no recovery path. */
    method RollbackVersion(r: Rollback, analyzes: Analysis, fault: Fault) returns (result: Result<Record, Error>)
      modifies this
      ensures (View(), result) == RunRollback(old(View()), r, analyzes, fault)
    {
      var current := Find(docs.records, r.id);
      var version := GetVersion(archive, r.fingerprint);
      if current.None? || version.None? { return Err(VersionUnavailable); }
      var (files, record) := version.value;
      if record.trust != Trusted { return Err(VersionNotTrusted); }
      var restored := Restored(record, r.now);
      var ok := ExchangePackage(current.value, files, restored, restored.trust, true, r.id,
                                r.archivedAt, r.now, r.order, analyzes, fault);
      if ok { return Ok(restored); }
      return Err(StepFailed);
    }
  }
}
