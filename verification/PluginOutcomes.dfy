/**
 What a successful update or rollback stores, told from the outside: the record, the other records, the
 trust entry, the profiles and the files, and which check refuses a call.
 */
module PluginOutcomes {
  import opened Results
  import opened Lists
  import opened PluginTypes
  import opened PluginVersions
  import opened PluginManager
  import opened PluginLaws

  // ----- Reading the documents -----

  predicate HasId(records: seq<Record>, id: PluginId) { exists i :: 0 <= i < |records| && records[i].id == id }

  lemma {:induction false} IdsOfRecords(records: seq<Record>, id: PluginId)
    ensures id in Ids(records) <==> HasId(records, id)
  {
    if records != [] {
      IdsOfRecords(records[1..], id);
      if i :| 0 <= i < |records| && records[i].id == id {
        if i > 0 { assert records[1..][i - 1].id == id; }
      }
    }
  }

  /** The first record with the id. */
  lemma {:induction false} FindsTheFirst(records: seq<Record>, id: PluginId)
    ensures Find(records, id).None? <==> !HasId(records, id)
    ensures Find(records, id).Some? ==>
              exists i :: 0 <= i < |records| && records[i] == Find(records, id).value && records[i].id == id
                          && forall j :: 0 <= j < i ==> records[j].id != id
  {
    if records != [] && records[0].id != id {
      FindsTheFirst(records[1..], id);
      if Find(records, id).Some? {
        var i :| 0 <= i < |records[1..]| && records[1..][i] == Find(records, id).value && records[1..][i].id == id
                 && forall j :: 0 <= j < i ==> records[1..][j].id != id;
        assert records[i + 1].id == id;
        forall j | 0 <= j < i + 1 ensures records[j].id != id { if j > 0 { assert records[1..][j - 1].id != id; } }
      } else if i :| 0 <= i < |records| && records[i].id == id {
        assert records[1..][i - 1].id == id;
      }
    }
  }

  /** The record of a plugin is exchanged and every other one is where it was. */
  predicate OnlyExchanged(before: seq<Record>, after: seq<Record>, id: PluginId, r: Record)
  {
    && |after| == |before|
    && forall i :: 0 <= i < |before| ==> after[i] == if before[i].id == id then r else before[i]
  }

  lemma {:induction false} ReplaceOnlyExchanges(records: seq<Record>, id: PluginId, r: Record)
    ensures OnlyExchanged(records, Replace(records, id, r), id, r)
  {
    if records != [] {
      ReplaceOnlyExchanges(records[1..], id, r);
      forall i | 0 < i < |records| ensures Replace(records, id, r)[i] == if records[i].id == id then r else records[i] {
        assert records[i] == records[1..][i - 1];
      }
    }
  }

  function IsInstalled(records: seq<Record>): PluginId -> bool { (id: PluginId) => id in Ids(records) }

  function In(ids: set<PluginId>): PluginId -> bool { (id: PluginId) => id in ids }

  function OtherThan(id: PluginId): PluginId -> bool { (x: PluginId) => x != id }

  lemma {:induction false} InstalledIsSelection(ids: seq<PluginId>, installed: set<PluginId>)
    ensures IsSelection(ids, Installed(ids, installed), In(installed))
  {
    if ids == [] {
      SelectionOfNothing(In(installed));
    } else {
      InstalledIsSelection(ids[1..], installed);
      var rest := Installed(ids[1..], installed);
      assert [ids[0]] + ids[1..] == ids;
      if ids[0] in installed {
        SelectionKeeps(ids[0], ids[1..], rest, In(installed));
      } else {
        SelectionDrops(ids[0], ids[1..], rest, In(installed));
        assert [] + rest == rest;
      }
    }
  }

  /** One profile as it is read: exactly its plugins that are installed, in order. */
  ghost predicate IsReadAs(stored: Profile, read: Profile, installed: set<PluginId>)
  {
    && read.id == stored.id && read.active == stored.active && read.updatedAt == stored.updatedAt
    && IsSelection(stored.pluginIds, read.pluginIds, In(installed))
  }

  lemma {:induction false} ProfilesAreRead(profiles: seq<Profile>, installed: set<PluginId>)
    ensures var read := Readable(profiles, installed);
            |read| == |profiles| && forall i :: 0 <= i < |profiles| ==> IsReadAs(profiles[i], read[i], installed)
  {
    if profiles != [] {
      ProfilesAreRead(profiles[1..], installed);
      InstalledIsSelection(profiles[0].pluginIds, installed);
      var read := Readable(profiles, installed);
      forall i | 0 < i < |profiles| ensures IsReadAs(profiles[i], read[i], installed) {
        assert profiles[i] == profiles[1..][i - 1] && read[i] == Readable(profiles[1..], installed)[i - 1];
      }
    }
  }

  lemma DocumentsAreRead(d: Documents)
    ensures var read := ReadProfiles(d);
            |read| == |d.profiles| && forall i :: 0 <= i < |d.profiles| ==> IsReadAs(d.profiles[i], read[i], Ids(d.records))
  {
    ProfilesAreRead(d.profiles, Ids(d.records));
  }

  // ----- Profiles after an update -----

  lemma {:induction false} ExcludeIsSelection(ids: seq<PluginId>, id: PluginId)
    ensures IsSelection(ids, Exclude(ids, id), OtherThan(id))
  {
    if ids == [] {
      SelectionOfNothing(OtherThan(id));
    } else {
      ExcludeIsSelection(ids[1..], id);
      var rest := Exclude(ids[1..], id);
      assert [ids[0]] + ids[1..] == ids;
      if ids[0] != id {
        SelectionKeeps(ids[0], ids[1..], rest, OtherThan(id));
      } else {
        SelectionDrops(ids[0], ids[1..], rest, OtherThan(id));
        assert [] + rest == rest;
      }
    }
  }

  /** The profile has lost the plugin and nothing else. */
  ghost predicate LostPlugin(before: Profile, after: Profile, id: PluginId, now: Time)
  {
    && after.id == before.id && after.active == before.active && after.updatedAt == now
    && IsSelection(before.pluginIds, after.pluginIds, OtherThan(id))
  }

  lemma {:induction false} ProfilesLoseThePlugin(profiles: seq<Profile>, id: PluginId, now: Time)
    ensures var after := ExcludeEverywhere(profiles, id, now);
            |after| == |profiles| && forall i :: 0 <= i < |profiles| ==> LostPlugin(profiles[i], after[i], id, now)
  {
    if profiles != [] {
      ProfilesLoseThePlugin(profiles[1..], id, now);
      ExcludeIsSelection(profiles[0].pluginIds, id);
      var after := ExcludeEverywhere(profiles, id, now);
      forall i | 0 < i < |profiles| ensures LostPlugin(profiles[i], after[i], id, now) {
        assert profiles[i] == profiles[1..][i - 1] && after[i] == ExcludeEverywhere(profiles[1..], id, now)[i - 1];
      }
    }
  }

  // ----- Profiles after a rollback -----

  lemma {:induction false} IncludeIsOnceInOrder(ids: seq<PluginId>, id: PluginId, seen: set<PluginId>)
    ensures OnceInOrder(ids + [id], Include(ids, id, seen), seen)
  {
    if ids == [] {
      assert [] + [id] == [id] + [];
      if id in seen { OnceSkips(id, [], [], seen); } else { OnceKeeps(id, [], [], seen); }
    } else {
      assert ids + [id] == [ids[0]] + (ids[1..] + [id]);
      if ids[0] in seen {
        IncludeIsOnceInOrder(ids[1..], id, seen);
        OnceSkips(ids[0], ids[1..] + [id], Include(ids[1..], id, seen), seen);
      } else {
        IncludeIsOnceInOrder(ids[1..], id, seen + {ids[0]});
        OnceKeeps(ids[0], ids[1..] + [id], Include(ids[1..], id, seen + {ids[0]}), seen);
      }
    }
  }

  /** An active profile lists its former plugins, each once and in order, and then the plugin; the others are unchanged. */
  ghost predicate GainedPlugin(before: Profile, after: Profile, id: PluginId, now: Time)
  {
    if before.active then
      && after.id == before.id && after.active && after.updatedAt == now
      && OnceInOrder(before.pluginIds + [id], after.pluginIds, {})
    else
      after == before
  }

  lemma {:induction false} ProfilesGainThePlugin(profiles: seq<Profile>, id: PluginId, now: Time)
    ensures var after := IncludeInActive(profiles, id, now);
            |after| == |profiles| && forall i :: 0 <= i < |profiles| ==> GainedPlugin(profiles[i], after[i], id, now)
  {
    if profiles != [] {
      ProfilesGainThePlugin(profiles[1..], id, now);
      IncludeIsOnceInOrder(profiles[0].pluginIds, id, {});
      var after := IncludeInActive(profiles, id, now);
      forall i | 0 < i < |profiles| ensures GainedPlugin(profiles[i], after[i], id, now) {
        assert profiles[i] == profiles[1..][i - 1] && after[i] == IncludeInActive(profiles[1..], id, now)[i - 1];
      }
    }
  }

  // ----- Files -----

  /** Everything is copied but what lies in a directory of dependencies or of version control. */
  predicate IsLeftOut(f: Path) { exists i :: 0 <= i < |f| && (f[i] == "node_modules" || f[i] == ".git") }

  ghost predicate IsCopyOf(copy: Package, original: Package)
  {
    && (forall f :: f in copy <==> f in original && !IsLeftOut(f))
    && (forall f :: f in copy ==> copy[f] == original[f])
  }

  lemma {:induction false} CopiedPaths(f: Path)
    ensures IsCopied(f) <==> !IsLeftOut(f)
  {
    if f != [] {
      CopiedPaths(f[1..]);
      if IsLeftOut(f[1..]) {
        var i :| 0 <= i < |f[1..]| && (f[1..][i] == "node_modules" || f[1..][i] == ".git");
        assert f[i + 1] == f[1..][i];
      }
      if IsLeftOut(f) && f[0] != "node_modules" && f[0] != ".git" {
        var i :| 0 <= i < |f| && (f[i] == "node_modules" || f[i] == ".git");
        assert f[1..][i - 1] == f[i];
      }
    }
  }

  lemma StripCopies(p: Package)
    ensures IsCopyOf(Strip(p), p)
  {
    forall f ensures IsCopied(f) <==> !IsLeftOut(f) { CopiedPaths(f); }
  }

  // ----- What is stored is what is read -----

  lemma {:induction false} InstalledKeepsAll(ids: seq<PluginId>, installed: set<PluginId>)
    requires forall i :: 0 <= i < |ids| ==> ids[i] in installed
    ensures Installed(ids, installed) == ids
  {
    if ids != [] { InstalledKeepsAll(ids[1..], installed); }
  }

  lemma LostAreInstalled(ids: seq<PluginId>, id: PluginId, installed: set<PluginId>)
    ensures var left := Exclude(Installed(ids, installed), id); Installed(left, installed) == left
  {
    var read := Installed(ids, installed);
    var left := Exclude(read, id);
    forall i | 0 <= i < |left| ensures left[i] in installed {
      ExcludeIsSelection(read, id);
      SelectionHolds(read, left, OtherThan(id), left[i]);
      InstalledIsSelection(ids, installed);
      SelectionHolds(ids, read, In(installed), left[i]);
    }
    InstalledKeepsAll(left, installed);
  }

  lemma {:induction false} LostProfilesAreRead(profiles: seq<Profile>, id: PluginId, now: Time, installed: set<PluginId>)
    ensures var left := ExcludeEverywhere(Readable(profiles, installed), id, now); Readable(left, installed) == left
  {
    if profiles != [] {
      LostProfilesAreRead(profiles[1..], id, now, installed);
      LostAreInstalled(profiles[0].pluginIds, id, installed);
      var left := ExcludeEverywhere(Readable(profiles[1..], installed), id, now);
      var first := profiles[0].(pluginIds := Exclude(Installed(profiles[0].pluginIds, installed), id), updatedAt := now);
      assert ([first] + left)[1..] == left;
    }
  }

  // ----- Updating -----

  /** The new record: identity and installation are the old ones, the rest is what was scanned, and nothing is trusted yet. */
  predicate IsReviewRecord(r: Record, former: Record, u: Update)
  {
    && r.id == former.id && r.packageName == former.packageName && r.installedAt == former.installedAt
    && r.version == u.scan.version && r.contentHash == u.scan.contentHash && r.manifestHash == u.scan.manifestHash
    && r.compatibility == u.scan.compatibility && r.p2 == u.scan.p2
    && r.presentation == (if u.scan.presentation.Some? then u.scan.presentation else former.presentation)
    && r.nativePlugin == (if u.scan.nativePlugin.Some? then u.scan.nativePlugin else former.nativePlugin)
    && r.dependencyLockHash == (if u.scan.dependencyLockHash.Some? then u.scan.dependencyLockHash else former.dependencyLockHash)
    && r.source == u.source && r.fingerprint == u.fingerprint && r.updatedAt == u.now
    && r.trust == ReviewRequired && !r.enabled && r.lastError == None && r.isolation == None
  }

  ghost predicate AllLostPlugin(before: seq<Profile>, after: seq<Profile>, id: PluginId, now: Time)
  {
    |after| == |before| && forall i :: 0 <= i < |before| ==> LostPlugin(before[i], after[i], id, now)
  }

  lemma ExchangeSucceedsExactly(s: State, current: Record, files: Package, r: Record, trust: Trust, active: bool, id: PluginId,
                                archivedAt: Time, now: Time, order: seq<Fingerprint>, analyzes: Analysis, fault: Fault)
    ensures var t := Exchange(s, current, files, r, trust, active, id, archivedAt, now, order, analyzes, fault);
            && (t.ok <==> s.package.Some? && analyzes(s.package.value) && fault == NoFault)
            && (t.ok ==> t.state.docs == WriteDocuments(s.docs, r, id, trust, active, now, NoFault).state && t.state.package == Some(files))
  {
  }

  /** Which check refuses an update; a refused call changes nothing. */
  lemma UpdateIsRefusedExactly(s: State, u: Update, analyzes: Analysis, fault: Fault)
    ensures var result := RunUpdate(s, u, analyzes, fault);
            var current := Find(s.docs.records, u.id);
            && (!HasId(s.docs.records, u.id) ==> result == (s, Err(NotFound)))
            && (current.Some? && current.value.fingerprint != u.expected ==> result == (s, Err(Stale)))
            && (current.Some? && current.value.fingerprint == u.expected && current.value.packageName != u.scan.packageName ==>
                  result == (s, Err(NameChanged)))
  {
    FindsTheFirst(s.docs.records, u.id);
  }

  /** When an update succeeds. */
  lemma UpdateSucceedsExactly(s: State, u: Update, analyzes: Analysis, fault: Fault)
    ensures var current := Find(s.docs.records, u.id);
            RunUpdate(s, u, analyzes, fault).1.Ok? <==>
              && current.Some? && current.value.fingerprint == u.expected && current.value.packageName == u.scan.packageName
              && s.package.Some? && analyzes(s.package.value) && fault == NoFault
  {
    var current := Find(s.docs.records, u.id);
    if current.Some? {
      ExchangeSucceedsExactly(s, current.value, Strip(u.prepared), NextRecord(current.value, u), ReviewRequired, false, u.id,
                              u.archivedAt, u.now, u.order, analyzes, fault);
    }
  }

  lemma NextRecordIsForReview(current: Record, u: Update)
    ensures IsReviewRecord(NextRecord(current, u), current, u)
  {
  }

  /** A trust document in which one entry was set. */
  predicate OnlyTrusts(before: map<PluginId, TrustEntry>, after: map<PluginId, TrustEntry>, id: PluginId, status: Trust,
                       fingerprint: Fingerprint, now: Time)
  {
    && after.Keys == before.Keys + {id}
    && (forall other :: other in before && other != id ==> after[other] == before[other])
    && after[id].status == status && after[id].fingerprint == fingerprint && after[id].updatedAt == now
  }

  lemma WrittenTrust(d: Documents, r: Record, id: PluginId, trust: Trust, active: bool, now: Time)
    ensures OnlyTrusts(d.trust, WriteDocuments(d, r, id, trust, active, now, NoFault).state.trust, id, trust, r.fingerprint, now)
  {
  }

  /** The documents when a plugin has to be reviewed. */
  lemma WrittenForReview(d: Documents, r: Record, id: PluginId, now: Time)
    requires r.id == id && Find(d.records, id).Some?
    ensures var after := WriteDocuments(d, r, id, ReviewRequired, false, now, NoFault).state;
            && OnlyExchanged(d.records, after.records, id, r) && Find(after.records, id) == Some(r)
            && AllLostPlugin(ReadProfiles(d), ReadProfiles(after), id, now)
  {
    ReplaceOnlyExchanges(d.records, id, r);
    FindReplaced(d.records, id, r);
    ReplaceKeepsIds(d.records, id, r);
    ProfilesLoseThePlugin(ReadProfiles(d), id, now);
    LostProfilesAreRead(d.profiles, id, now, Ids(d.records));
  }

  lemma SuccessfulUpdate(s: State, u: Update, analyzes: Analysis, fault: Fault) returns (current: Record, r: Record)
    requires RunUpdate(s, u, analyzes, fault).1.Ok?
    ensures Find(s.docs.records, u.id) == Some(current) && current.id == u.id && r == NextRecord(current, u)
    ensures var (s', result) := RunUpdate(s, u, analyzes, fault);
            && result == Ok(r) && s'.package == Some(Strip(u.prepared))
            && s'.docs == WriteDocuments(s.docs, r, u.id, ReviewRequired, false, u.now, NoFault).state
  {
    FoundIds(s.docs.records, u.id);
    current := Find(s.docs.records, u.id).value;
    r := NextRecord(current, u);
    ExchangeSucceedsExactly(s, current, Strip(u.prepared), r, ReviewRequired, false, u.id,
                            u.archivedAt, u.now, u.order, analyzes, fault);
  }

  /**
   What a successful update leaves: a record that has to be reviewed, in the list and in the trust document;
   the other records and trust entries as they were; no profile that lists the plugin; the prepared files.
   */
  lemma UpdateRequiresReview(s: State, u: Update, analyzes: Analysis, fault: Fault)
    requires RunUpdate(s, u, analyzes, fault).1.Ok?
    ensures var (s', result) := RunUpdate(s, u, analyzes, fault);
            var (r, current) := (result.value, Find(s.docs.records, u.id));
            && current.Some? && IsReviewRecord(r, current.value, u)
            && OnlyExchanged(s.docs.records, s'.docs.records, u.id, r) && Find(s'.docs.records, u.id) == Some(r)
            && OnlyTrusts(s.docs.trust, s'.docs.trust, u.id, ReviewRequired, r.fingerprint, u.now)
            && AllLostPlugin(ReadProfiles(s.docs), ReadProfiles(s'.docs), u.id, u.now)
            && s'.package.Some? && IsCopyOf(s'.package.value, u.prepared)
  {
    var current, r := SuccessfulUpdate(s, u, analyzes, fault);
    NextRecordIsForReview(current, u);
    WrittenForReview(s.docs, r, u.id, u.now);
    WrittenTrust(s.docs, r, u.id, ReviewRequired, false, u.now);
    StripCopies(u.prepared);
  }

  // ----- Rolling back -----

  ghost predicate AllGainedPlugin(before: seq<Profile>, after: seq<Profile>, id: PluginId, now: Time)
  {
    |after| == |before| && forall i :: 0 <= i < |before| ==> GainedPlugin(before[i], after[i], id, now)
  }

  /** Which check refuses a rollback; a refused call changes nothing. */
  lemma RollbackIsRefusedExactly(s: State, r: Rollback, analyzes: Analysis, fault: Fault)
    ensures var result := RunRollback(s, r, analyzes, fault);
            var version := GetVersion(s.archive, r.fingerprint);
            && (!HasId(s.docs.records, r.id) || version.None? ==> result == (s, Err(VersionUnavailable)))
            && (HasId(s.docs.records, r.id) && version.Some? && version.value.1.trust != Trusted ==> result == (s, Err(VersionNotTrusted)))
  {
    FindsTheFirst(s.docs.records, r.id);
  }

  /** When a rollback succeeds. */
  lemma RollbackSucceedsExactly(s: State, r: Rollback, analyzes: Analysis, fault: Fault)
    ensures var version := GetVersion(s.archive, r.fingerprint);
            RunRollback(s, r, analyzes, fault).1.Ok? <==>
              && HasId(s.docs.records, r.id) && version.Some? && version.value.1.trust == Trusted
              && s.package.Some? && analyzes(s.package.value) && fault == NoFault
  {
    FindsTheFirst(s.docs.records, r.id);
    var (current, version) := (Find(s.docs.records, r.id), GetVersion(s.archive, r.fingerprint));
    if current.Some? && version.Some? {
      var restored := Restored(version.value.1, r.now);
      ExchangeSucceedsExactly(s, current.value, version.value.0, restored, restored.trust, true, r.id,
                              r.archivedAt, r.now, r.order, analyzes, fault);
    }
  }

  /** The record of the version as it was archived, but for the time and the error states. */
  predicate IsRestoredRecord(r: Record, archived: Record, now: Time)
  {
    && r.updatedAt == now && r.lastError == None && r.isolation == None
    && r.(updatedAt := archived.updatedAt, lastError := archived.lastError, isolation := archived.isolation) == archived
  }

  lemma RestoredIsArchived(archived: Record, now: Time)
    ensures IsRestoredRecord(Restored(archived, now), archived, now)
  {
  }

  lemma SuccessfulRollback(s: State, r: Rollback, analyzes: Analysis, fault: Fault) returns (version: (Package, Record), record: Record)
    requires RunRollback(s, r, analyzes, fault).1.Ok?
    ensures GetVersion(s.archive, r.fingerprint) == Some(version) && version.1.trust == Trusted && record == Restored(version.1, r.now)
    ensures Find(s.docs.records, r.id).Some?
    ensures var (s', result) := RunRollback(s, r, analyzes, fault);
            && result == Ok(record) && s'.package == Some(version.0)
            && s'.docs == WriteDocuments(s.docs, record, r.id, Trusted, true, r.now, NoFault).state
  {
    var current := Find(s.docs.records, r.id).value;
    version := GetVersion(s.archive, r.fingerprint).value;
    record := Restored(version.1, r.now);
    ExchangeSucceedsExactly(s, current, version.0, record, record.trust, true, r.id, r.archivedAt, r.now, r.order, analyzes, fault);
  }

  /** The documents when a version has been restored. */
  lemma WrittenForUse(d: Documents, r: Record, id: PluginId, now: Time)
    requires Find(d.records, id).Some?
    ensures var after := WriteDocuments(d, r, id, Trusted, true, now, NoFault).state;
            && OnlyExchanged(d.records, after.records, id, r)
            && (r.id == id ==> AllGainedPlugin(ReadProfiles(d), ReadProfiles(after), id, now))
  {
    ReplaceOnlyExchanges(d.records, id, r);
    if r.id == id {
      ReplaceKeepsIds(d.records, id, r);
      FoundIds(d.records, id);
      ProfilesGainThePlugin(ReadProfiles(d), id, now);
      IncludedAreRead(d.profiles, id, now, Ids(d.records));
    }
  }

  /**
   What a successful rollback leaves: the archived record and its trust, every active profile with its former
   plugins in order and then the plugin, inactive profiles as they were read, and the archived files.
   */
  lemma RollbackRestoresTheVersion(s: State, r: Rollback, analyzes: Analysis, fault: Fault)
    requires RunRollback(s, r, analyzes, fault).1.Ok?
    ensures var (s', result) := RunRollback(s, r, analyzes, fault);
            var (record, version) := (result.value, GetVersion(s.archive, r.fingerprint));
            && version.Some? && IsRestoredRecord(record, version.value.1, r.now) && record.trust == Trusted
            && OnlyExchanged(s.docs.records, s'.docs.records, r.id, record)
            && OnlyTrusts(s.docs.trust, s'.docs.trust, r.id, Trusted, record.fingerprint, r.now)
            && s'.package == Some(version.value.0)
            && (record.id == r.id ==> AllGainedPlugin(ReadProfiles(s.docs), ReadProfiles(s'.docs), r.id, r.now))
  {
    var version, record := SuccessfulRollback(s, r, analyzes, fault);
    RestoredIsArchived(version.1, r.now);
    WrittenForUse(s.docs, record, r.id, r.now);
    WrittenTrust(s.docs, record, r.id, Trusted, true, r.now);
  }
}
