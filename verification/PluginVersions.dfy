/**
 The archive of one plugin's former versions, a directory per fingerprint.
 A directory is a version once it holds a package and the snapshot that is written last.
 */
module PluginVersions {
  import opened Results
  import opened PluginTypes

  datatype Snapshot = Snapshot(updatedAt: Time, record: Record)

  datatype Directory = Directory(package: Option<Package>, snapshot: Option<Snapshot>)

  type Archive = map<Fingerprint, Directory>

  predicate IsVersion(d: Directory) { d.package.Some? && d.snapshot.Some? }

  function DirectoryOf(archive: Archive, f: Fingerprint): Directory
  {
    if f in archive then archive[f] else Directory(None, None)
  }

  function PackageOf(d: Directory): Package { if d.package.None? then map[] else d.package.value }

  /** `getPluginVersion`. */
  function GetVersion(archive: Archive, f: Fingerprint): Option<(Package, Record)>
  {
    if f in archive && IsVersion(archive[f]) then Some((archive[f].package.value, archive[f].snapshot.value.record)) else None
  }

  /** `listPluginVersions` before it sorts: the versions in the order in which the directory is read. */
  function Listed(archive: Archive, order: seq<Fingerprint>): (fs: seq<Fingerprint>)
    ensures forall i :: 0 <= i < |fs| ==> fs[i] in archive && IsVersion(archive[fs[i]])
  {
    if order == [] then []
    else
      Listed(archive, order[..|order| - 1]) +
      var f := order[|order| - 1];
      if f in archive && IsVersion(archive[f]) then [f] else []
  }

  function TimeOf(archive: Archive, f: Fingerprint): Time
    requires f in archive && IsVersion(archive[f])
  {
    archive[f].snapshot.value.updatedAt
  }

  /** The head of the stable sort from new to old. */
  function Newest(archive: Archive, fs: seq<Fingerprint>): (newest: Option<Fingerprint>)
    requires forall i :: 0 <= i < |fs| ==> fs[i] in archive && IsVersion(archive[fs[i]])
    ensures newest.None? <==> fs == []
    ensures newest.Some? ==> newest.value in archive && IsVersion(archive[newest.value])
  {
    if fs == [] then None
    else
      var best := Newest(archive, fs[..|fs| - 1]);
      var f := fs[|fs| - 1];
      if best.Some? && TimeOf(archive, best.value) >= TimeOf(archive, f) then best else Some(f)
  }

  function Members(fs: seq<Fingerprint>): set<Fingerprint>
  {
    if fs == [] then {} else Members(fs[..|fs| - 1]) + {fs[|fs| - 1]}
  }

  function Survivor(archive: Archive, order: seq<Fingerprint>): Option<Fingerprint> { Newest(archive, Listed(archive, order)) }

  /** The versions that pruning deletes: all but the newest. */
  function Outdated(archive: Archive, order: seq<Fingerprint>): set<Fingerprint>
  {
    Members(Listed(archive, order)) - if Survivor(archive, order).Some? then {Survivor(archive, order).value} else {}
  }

  function Prune(archive: Archive, order: seq<Fingerprint>): Archive { archive - Outdated(archive, order) }

  /** The directory of a version after its files and its snapshot are written over what was there. */
  function Stored(archive: Archive, record: Record, package: Package, now: Time): Archive
  {
    archive[record.fingerprint := Directory(Some(PackageOf(DirectoryOf(archive, record.fingerprint)) + Strip(package)),
                                            Some(Snapshot(now, record)))]
  }

  /** What `archivePluginVersion` does when nothing fails. */
  function Archived(archive: Archive, record: Record, package: Package, now: Time, order: seq<Fingerprint>): Archive
  {
    Prune(Stored(archive, record, package, now), order)
  }

  // ----- What pruning keeps -----

  /** The directory is listed completely. */
  predicate Lists(order: seq<Fingerprint>, archive: Archive) { archive.Keys <= Members(order) }

  /** Every directory can be listed completely. */
  lemma {:induction false} CompleteListing(archive: Archive) returns (order: seq<Fingerprint>)
    ensures Lists(order, archive)
    decreases |archive|
  {
    if archive == map[] {
      order := [];
    } else {
      var f :| f in archive;
      var rest := CompleteListing(archive - {f});
      order := rest + [f];
      assert order[..|order| - 1] == rest;
    }
  }

  lemma {:induction false} ListedMembers(archive: Archive, order: seq<Fingerprint>, f: Fingerprint)
    ensures f in Members(Listed(archive, order)) <==> f in Members(order) && f in archive && IsVersion(archive[f])
  {
    if order != [] {
      var n := |order| - 1;
      ListedMembers(archive, order[..n], f);
      var rest := Listed(archive, order[..n]);
      assert (rest + [order[n]])[..|rest|] == rest && rest + [] == rest;
    }
  }

  lemma {:induction false} NewestIsLatest(archive: Archive, fs: seq<Fingerprint>, f: Fingerprint)
    requires forall i :: 0 <= i < |fs| ==> fs[i] in archive && IsVersion(archive[fs[i]])
    requires f in Members(fs)
    ensures Newest(archive, fs).Some? && Newest(archive, fs).value in Members(fs)
    ensures f in archive && IsVersion(archive[f]) && TimeOf(archive, f) <= TimeOf(archive, Newest(archive, fs).value)
  {
    var n := |fs| - 1;
    if f in Members(fs[..n]) {
      NewestIsLatest(archive, fs[..n], f);
    } else if n > 0 {
      assert fs[..n][n - 1] in Members(fs[..n]);
      NewestIsLatest(archive, fs[..n], fs[..n][n - 1]);
    }
  }

  /** Among versions of the same time the one listed first counts as the newest: the sort is stable. */
  lemma {:induction false} NewestIsTheFirst(archive: Archive, fs: seq<Fingerprint>) returns (i: nat)
    requires forall k :: 0 <= k < |fs| ==> fs[k] in archive && IsVersion(archive[fs[k]])
    requires fs != []
    ensures i < |fs| && Newest(archive, fs) == Some(fs[i])
    ensures forall k :: 0 <= k < |fs| ==> TimeOf(archive, fs[k]) <= TimeOf(archive, fs[i])
    ensures forall k :: 0 <= k < i ==> TimeOf(archive, fs[k]) < TimeOf(archive, fs[i])
  {
    var n := |fs| - 1;
    if n == 0 {
      i := 0;
      assert fs[..0] == [];
    } else {
      i := NewestIsTheFirst(archive, fs[..n]);
      if TimeOf(archive, fs[i]) < TimeOf(archive, fs[n]) { i := n; }
    }
  }

  /** Pruning leaves exactly one version, the newest, and does not touch unfinished directories. */
  lemma PruneKeepsTheNewest(archive: Archive, order: seq<Fingerprint>, f: Fingerprint)
    requires Lists(order, archive) && f in archive
    ensures IsVersion(archive[f]) ==> Survivor(archive, order).Some?
    ensures IsVersion(archive[f]) ==> (f in Prune(archive, order) <==> Survivor(archive, order) == Some(f))
    ensures !IsVersion(archive[f]) ==> f in Prune(archive, order)
    ensures Survivor(archive, order).Some? && IsVersion(archive[f]) ==>
              TimeOf(archive, f) <= TimeOf(archive, Survivor(archive, order).value)
  {
    ListedMembers(archive, order, f);
    if IsVersion(archive[f]) { NewestIsLatest(archive, Listed(archive, order), f); }
  }

  /** On a clock that has moved on since every other version, a version just stored survives the pruning. */
  lemma LatestSurvives(archive: Archive, order: seq<Fingerprint>, f: Fingerprint)
    requires Lists(order, archive) && f in archive && IsVersion(archive[f])
    requires forall g :: g in archive && g != f && IsVersion(archive[g]) ==> TimeOf(archive, g) < TimeOf(archive, f)
    ensures Survivor(archive, order) == Some(f)
  {
    PruneKeepsTheNewest(archive, order, f);
  }

  /** The one version that is left after archiving on such a clock is the one just archived. */
  lemma ArchiveHoldsOneVersion(archive: Archive, record: Record, package: Package, now: Time, order: seq<Fingerprint>, g: Fingerprint)
    requires Lists(order, Stored(archive, record, package, now))
    requires forall g :: g in archive && g != record.fingerprint && IsVersion(archive[g]) ==> TimeOf(archive, g) < now
    ensures GetVersion(Archived(archive, record, package, now, order), g).Some? <==> g == record.fingerprint
    ensures GetVersion(Archived(archive, record, package, now, order), record.fingerprint) ==
            Some((PackageOf(DirectoryOf(archive, record.fingerprint)) + Strip(package), record))
  {
    var stored := Stored(archive, record, package, now);
    LatestSurvives(stored, order, record.fingerprint);
    PruneKeepsTheNewest(stored, order, record.fingerprint);
    if g in stored { PruneKeepsTheNewest(stored, order, g); }
  }
}
