/** Plugin records, trust, profiles and packages. */
module PluginTypes {
  import opened Results

  type PluginId = string
  type Fingerprint = string
  type Time = nat

  datatype Trust = ReviewRequired | Trusted | Disabled

  datatype Record = Record(
    id: PluginId,
    packageName: string,
    version: string,
    source: string,
    contentHash: string,
    manifestHash: string,
    fingerprint: Fingerprint,
    compatibility: string,
    trust: Trust,
    enabled: bool,
    installedAt: Time,
    updatedAt: Time,
    presentation: Option<string>,
    nativePlugin: Option<string>,
    p2: Option<string>,
    dependencyLockHash: Option<string>,
    lastError: Option<string>,
    isolation: Option<string>)

  datatype TrustEntry = TrustEntry(fingerprint: Fingerprint, status: Trust, updatedAt: Time)

  datatype Profile = Profile(id: string, active: bool, pluginIds: seq<PluginId>, updatedAt: Time)

  /** The three documents of the plugin store. */
  datatype Documents = Documents(records: seq<Record>, trust: map<PluginId, TrustEntry>, profiles: seq<Profile>)

  function Ids(records: seq<Record>): set<PluginId>
  {
    if records == [] then {} else {records[0].id} + Ids(records[1..])
  }

  function Installed(ids: seq<PluginId>, installed: set<PluginId>): seq<PluginId>
  {
    if ids == [] then []
    else (if ids[0] in installed then [ids[0]] else []) + Installed(ids[1..], installed)
  }

  /** `readPluginProfiles`: plugins that are not installed are left out of what is read. */
  function Readable(profiles: seq<Profile>, installed: set<PluginId>): seq<Profile>
  {
    if profiles == [] then []
    else [profiles[0].(pluginIds := Installed(profiles[0].pluginIds, installed))] + Readable(profiles[1..], installed)
  }

  function ReadProfiles(d: Documents): seq<Profile> { Readable(d.profiles, Ids(d.records)) }

  lemma {:induction false} InstalledTwice(ids: seq<PluginId>, installed: set<PluginId>)
    ensures Installed(Installed(ids, installed), installed) == Installed(ids, installed)
  {
    if ids != [] {
      var rest := Installed(ids[1..], installed);
      InstalledTwice(ids[1..], installed);
      assert ([ids[0]] + rest)[1..] == rest && [] + rest == rest;
    }
  }

  /** Writing back what was read does not change what is read. */
  lemma {:induction false} ReadableTwice(profiles: seq<Profile>, installed: set<PluginId>)
    ensures Readable(Readable(profiles, installed), installed) == Readable(profiles, installed)
  {
    if profiles != [] {
      InstalledTwice(profiles[0].pluginIds, installed);
      ReadableTwice(profiles[1..], installed);
    }
  }

  // ----- Packages -----

  type Path = seq<string>

  /** The files of a directory by path. */
  type Package = map<Path, string>

  predicate IsCopied(p: Path) { p == [] || (p[0] != "node_modules" && p[0] != ".git" && IsCopied(p[1..])) }

  /** Everything but dependencies and version control data. */
  function Strip(p: Package): Package { map f | f in p && IsCopied(f) :: p[f] }

  function StripAll(p: Option<Package>): Option<Package> { if p.None? then None else Some(Strip(p.value)) }

  lemma StripTwice(p: Package)
    ensures Strip(Strip(p)) == Strip(p)
  {
  }
}
