// What every operation of the config server keeps, and what holds of every
// server that a run of operations can reach.
module ConfigProofs {
  import opened ConfigModel
  import opened Folders

  type Infos = map<nat, ConfigInfo>
  type Versions = map<nat, ConfigVersion>
  type Releases = map<nat, Release>

  // --- The invariant of the rows ---

  ghost predicate ExactlyUpTo(numbers: set<nat>, n: nat) {
    forall k: nat :: k in numbers <==> 1 <= k <= n
  }

  function VersionNumbers(versions: Versions, c: nat): set<nat> {
    set v | v in versions && versions[v].configId == c :: versions[v].version
  }

  function ReleaseNumbers(releases: Releases, c: nat): set<nat> {
    set r | r in releases && releases[r].configId == c :: releases[r].version
  }

  predicate OfConfig(v: ConfigVersion, i: ConfigInfo) { v.name == i.name && v.ns == i.ns && v.site == i.site }

  function KeyOf(i: ConfigInfo): Key { Key(i.site, i.ns, i.name) }

  function RowKey(v: ConfigVersion): Key { Key(v.site, v.ns, v.name) }

  ghost predicate IdsOk(db: Tables) {
    && 0 < db.nextId
    && (forall c :: c in db.infos ==> 0 < c < db.nextId)
    && (forall v :: v in db.versions ==> 0 < v < db.nextId)
    && (forall r :: r in db.releases ==> 0 < r < db.nextId)
  }

  // Configs have names, no two share files, and none keeps data and replacement
  // values in one.
  ghost predicate InfosOk(infos: Infos) {
    && (forall c :: c in infos ==> infos[c].name != "" && TwoFolders(KeyOf(infos[c])))
    && (forall c, d :: c in infos && d in infos && c != d ==> Apart(KeyOf(infos[c]), KeyOf(infos[d])))
  }

  ghost predicate VersionKeysOk(versions: Versions, infos: Infos) {
    forall v :: v in versions ==> versions[v].configId in infos && OfConfig(versions[v], infos[versions[v].configId])
  }

  // No two versions of a config share a number.
  ghost predicate VersionsOk(versions: Versions) {
    && (forall v :: v in versions ==>
      1 <= versions[v].version && (versions[v].replaceDigest != "" ==> versions[v].tplId != 0))
    && (forall v, w :: v in versions && w in versions && v != w && versions[v].configId == versions[w].configId
                       ==> versions[v].version != versions[w].version)
  }

  // A release carries the digest of the version it names.
  ghost predicate ReleaseNamesVersion(row: Release, versions: Versions) {
    && 1 <= row.version && row.versionId in versions
    && versions[row.versionId].configId == row.configId && versions[row.versionId].digest == row.digest
  }

  // Releases of one config have different numbers, and later ones name later versions.
  ghost predicate ReleaseOrder(a: Release, b: Release, versions: Versions)
    requires a.versionId in versions && b.versionId in versions
  {
    a.configId == b.configId ==>
      && a.version != b.version
      && (a.version < b.version ==> versions[a.versionId].version < versions[b.versionId].version)
      && (b.version < a.version ==> versions[b.versionId].version < versions[a.versionId].version)
  }

  ghost predicate ReleasesOk(releases: Releases, versions: Versions) {
    && (forall r :: r in releases ==> ReleaseNamesVersion(releases[r], versions))
    && (forall r, q :: r in releases && q in releases && r != q ==> ReleaseOrder(releases[r], releases[q], versions))
  }

  // The versions of a config are exactly 1..n and its head names n.
  ghost predicate VersionHeadOk(versions: Versions, cur: Current, c: nat) {
    && cur.latestVersion in versions && versions[cur.latestVersion].configId == c
    && ExactlyUpTo(VersionNumbers(versions, c), versions[cur.latestVersion].version)
  }

  // The releases of a config are exactly 1..m; latestRelease names m and
  // preRelease names m-1, each being 0 when there is no such release.
  ghost predicate ReleaseHeadOk(releases: Releases, cur: Current, c: nat) {
    if cur.latestRelease == 0 then cur.preRelease == 0 && ReleaseNumbers(releases, c) == {}
    else
      && cur.latestRelease in releases && releases[cur.latestRelease].configId == c
      && ExactlyUpTo(ReleaseNumbers(releases, c), releases[cur.latestRelease].version)
      && (if cur.preRelease == 0 then releases[cur.latestRelease].version == 1
          else
            && cur.preRelease in releases && releases[cur.preRelease].configId == c
            && releases[cur.preRelease].version == releases[cur.latestRelease].version - 1)
  }

  ghost predicate CurrentsOk(db: Tables) {
    && db.currents.Keys == db.infos.Keys
    && (forall c :: c in db.currents ==> VersionHeadOk(db.versions, db.currents[c], c))
    && (forall c :: c in db.currents ==> ReleaseHeadOk(db.releases, db.currents[c], c))
  }

  ghost predicate TablesOk(db: Tables) {
    && IdsOk(db) && InfosOk(db.infos) && VersionKeysOk(db.versions, db.infos) && VersionsOk(db.versions)
    && ReleasesOk(db.releases, db.versions) && CurrentsOk(db)
  }

  // --- The invariant that ties rows to files ---

  ghost predicate Holds(files: map<string, string>, path: string, digest: string) {
    path in files && DigestOf(files[path]) == digest
  }

  ghost predicate RowStored(row: ConfigVersion, files: map<string, string>) {
    && Holds(files, VersionFile(row), row.digest)
    && (row.replaceDigest != "" ==> Holds(files, ReplacementFile(row), row.replaceDigest))
  }

  ghost predicate FilesOk(versions: Versions, files: map<string, string>) {
    forall v :: v in versions ==> RowStored(versions[v], files)
  }

  ghost predicate Inv(s: Server) { TablesOk(s.db) && FilesOk(s.db.versions, s.files) }

  // --- Row changes that keep the rows consistent ---

  lemma InfoChangeKeeps(infos: Infos, versions: Versions, c: nat, i: ConfigInfo)
    requires InfosOk(infos) && VersionKeysOk(versions, infos) && c in infos && SameKey(i, infos[c])
    ensures InfosOk(infos[c := i]) && VersionKeysOk(versions, infos[c := i])
  {
    hide TwoFolders, Apart;
  }

  lemma PutInfoKeeps(db: Tables, c: nat, i: ConfigInfo)
    requires TablesOk(db) && c in db.infos && SameKey(i, db.infos[c])
    ensures TablesOk(PutInfo(db, c, i))
  {
    hide InfosOk, VersionKeysOk, VersionsOk, ReleasesOk, VersionHeadOk, ReleaseHeadOk;
    InfoChangeKeeps(db.infos, db.versions, c, MergeInfo(db.infos[c], i));
    assert PutInfo(db, c, i).infos.Keys == db.infos.Keys;
  }

  lemma NewestVersion(versions: Versions, cur: Current, c: nat, v: nat)
    requires VersionHeadOk(versions, cur, c) && VersionsOk(versions)
    requires v in versions && versions[v].configId == c
    ensures versions[v].version <= versions[cur.latestVersion].version
    ensures v != cur.latestVersion ==> versions[v].version < versions[cur.latestVersion].version
  {
    assert versions[v].version in VersionNumbers(versions, c);
  }

  lemma NewestRelease(releases: Releases, cur: Current, c: nat, r: nat)
    requires ReleaseHeadOk(releases, cur, c) && r in releases && releases[r].configId == c
    ensures cur.latestRelease != 0 && releases[r].version <= releases[cur.latestRelease].version
  {
    assert releases[r].version in ReleaseNumbers(releases, c);
  }

  lemma VersionNumbersGrow(versions: Versions, id: nat, row: ConfigVersion, c: nat)
    requires id !in versions
    ensures VersionNumbers(versions[id := row], c)
         == VersionNumbers(versions, c) + (if row.configId == c then {row.version} else {})
  {
    var grown := versions[id := row];
    forall k | k in VersionNumbers(versions, c) ensures k in VersionNumbers(grown, c) {
      var v :| v in versions && versions[v].configId == c && versions[v].version == k;
      assert grown[v] == versions[v];
    }
    assert grown[id] == row;
  }

  lemma ReleaseNumbersGrow(releases: Releases, id: nat, row: Release, c: nat)
    requires id !in releases
    ensures ReleaseNumbers(releases[id := row], c)
         == ReleaseNumbers(releases, c) + (if row.configId == c then {row.version} else {})
  {
    var grown := releases[id := row];
    forall k | k in ReleaseNumbers(releases, c) ensures k in ReleaseNumbers(grown, c) {
      var r :| r in releases && releases[r].configId == c && releases[r].version == k;
      assert grown[r] == releases[r];
    }
    assert grown[id] == row;
  }

  // The state after row has become the newest version of config c.
  function WithVersion(db: Tables, c: nat, row: ConfigVersion): Tables
    requires c in db.currents
  {
    PutCurrent(AddVersion(db, row), c, db.currents[c].(latestVersion := db.nextId))
  }

  ghost predicate NextRow(db: Tables, c: nat, row: ConfigVersion) {
    && c in db.currents && c in db.infos && db.currents[c].latestVersion in db.versions
    && row.configId == c && OfConfig(row, db.infos[c])
    && row.version == db.versions[db.currents[c].latestVersion].version + 1
    && (row.replaceDigest != "" ==> row.tplId != 0)
  }

  lemma OtherVersionHead(versions: Versions, cur: Current, d: nat, id: nat, row: ConfigVersion)
    requires VersionHeadOk(versions, cur, d) && id !in versions && row.configId != d
    ensures VersionHeadOk(versions[id := row], cur, d)
  {
    VersionNumbersGrow(versions, id, row, d);
    hide VersionNumbers;
  }

  lemma OwnVersionHead(versions: Versions, cur: Current, c: nat, id: nat, row: ConfigVersion)
    requires VersionHeadOk(versions, cur, c) && id !in versions && row.configId == c
    requires row.version == versions[cur.latestVersion].version + 1
    ensures VersionHeadOk(versions[id := row], cur.(latestVersion := id), c)
  {
    VersionNumbersGrow(versions, id, row, c);
    hide VersionNumbers;
  }

  lemma NextRowIsNewest(db: Tables, c: nat, row: ConfigVersion)
    requires TablesOk(db) && NextRow(db, c, row)
    ensures forall v :: v in db.versions && db.versions[v].configId == c ==> db.versions[v].version < row.version
    ensures !VersionTaken(db.versions, row)
  {
    forall v | v in db.versions && db.versions[v].configId == c ensures db.versions[v].version < row.version {
      NewestVersion(db.versions, db.currents[c], c, v);
    }
  }

  lemma ReleasesSurvive(releases: Releases, versions: Versions, more: Versions)
    requires ReleasesOk(releases, versions)
    requires forall v :: v in versions ==> v in more && more[v] == versions[v]
    ensures ReleasesOk(releases, more)
  {
    forall r, q | r in releases && q in releases && r != q
      ensures ReleaseNamesVersion(releases[r], more) && ReleaseOrder(releases[r], releases[q], more)
    {
      assert ReleaseNamesVersion(releases[r], versions) && ReleaseNamesVersion(releases[q], versions);
      assert ReleaseOrder(releases[r], releases[q], versions);
    }
    forall r | r in releases ensures ReleaseNamesVersion(releases[r], more) {
      assert ReleaseNamesVersion(releases[r], versions);
    }
  }

  lemma NewVersionRows(db: Tables, c: nat, row: ConfigVersion)
    requires TablesOk(db) && NextRow(db, c, row)
    ensures var versions := db.versions[db.nextId := row];
      VersionKeysOk(versions, db.infos) && VersionsOk(versions) && ReleasesOk(db.releases, versions)
  {
    hide InfosOk, VersionHeadOk, ReleaseHeadOk, ReleasesOk;
    NextRowIsNewest(db, c, row);
    ReleasesSurvive(db.releases, db.versions, db.versions[db.nextId := row]);
  }

  lemma NewVersionKeeps(db: Tables, c: nat, row: ConfigVersion)
    requires TablesOk(db) && NextRow(db, c, row)
    ensures TablesOk(WithVersion(db, c, row))
  {
    hide InfosOk, VersionKeysOk, VersionsOk, ReleasesOk, VersionHeadOk, ReleaseHeadOk;
    NewVersionRows(db, c, row);
    var tx := WithVersion(db, c, row);
    assert tx.currents.Keys == db.currents.Keys;
    forall d | d in tx.currents
      ensures VersionHeadOk(tx.versions, tx.currents[d], d) && ReleaseHeadOk(tx.releases, tx.currents[d], d)
    {
      if d == c {
        OwnVersionHead(db.versions, db.currents[c], c, db.nextId, row);
        ReleaseHeadIgnoresVersion(db.releases, db.currents[c], db.nextId, c);
      } else {
        OtherVersionHead(db.versions, db.currents[d], d, db.nextId, row);
      }
    }
  }

  lemma ReleaseHeadIgnoresVersion(releases: Releases, cur: Current, v: nat, c: nat)
    requires ReleaseHeadOk(releases, cur, c)
    ensures ReleaseHeadOk(releases, cur.(latestVersion := v), c)
  {
  }

  // --- Releasing ---

  // The guard of the "no new updates" error.
  predicate UpToDate(db: Tables, c: nat)
    requires c in db.currents
  {
    var cur := db.currents[c];
    cur.latestRelease != 0 && cur.latestRelease in db.releases &&
    db.releases[cur.latestRelease].versionId == cur.latestVersion
  }

  function NewRelease(db: Tables, c: nat, info: ConfigInfo): Release
    requires c in db.currents && db.currents[c].latestVersion in db.versions
    requires db.currents[c].latestRelease != 0 ==> db.currents[c].latestRelease in db.releases
  {
    var cur := db.currents[c];
    Release(c, (if cur.latestRelease == 0 then 0 else db.releases[cur.latestRelease].version) + 1,
            cur.latestVersion, db.versions[cur.latestVersion].digest, info.desc, info.createdBy)
  }

  function WithRelease(db: Tables, c: nat, info: ConfigInfo): Tables
    requires c in db.currents && db.currents[c].latestVersion in db.versions
    requires db.currents[c].latestRelease != 0 ==> db.currents[c].latestRelease in db.releases
  {
    var cur := db.currents[c];
    PutCurrent(AddRelease(db, NewRelease(db, c, info)), c, Current(cur.latestVersion, db.nextId, cur.latestRelease))
  }

  lemma HeadRowsExist(db: Tables, c: nat)
    requires TablesOk(db) && (c in db.currents || c in db.infos)
    ensures c in db.infos && c in db.currents
    ensures VersionHeadOk(db.versions, db.currents[c], c) && ReleaseHeadOk(db.releases, db.currents[c], c)
    ensures db.currents[c].latestVersion != 0 && db.currents[c].latestVersion in db.versions
    ensures db.currents[c].latestRelease != 0 ==> db.currents[c].latestRelease in db.releases
    ensures if db.currents[c].latestRelease == 0 then db.currents[c].preRelease == 0
            else ReleaseNamesVersion(db.releases[db.currents[c].latestRelease], db.versions)
  {
  }

  // The next release comes after every other release of the config, in number
  // and in the version it names.
  lemma NextReleaseIsNewest(db: Tables, c: nat, info: ConfigInfo, r: nat)
    requires TablesOk(db) && c in db.currents && !UpToDate(db, c)
    requires r in db.releases && db.releases[r].configId == c
    ensures db.currents[c].latestVersion in db.versions && db.currents[c].latestRelease in db.releases
    ensures db.releases[r].versionId in db.versions
    ensures db.releases[r].version < NewRelease(db, c, info).version
    ensures db.versions[db.releases[r].versionId].version < db.versions[db.currents[c].latestVersion].version
  {
    HeadRowsExist(db, c);
    var cur := db.currents[c];
    NewestRelease(db.releases, cur, c, r);
    assert ReleaseNamesVersion(db.releases[r], db.versions);
    NewestVersion(db.versions, cur, c, db.releases[cur.latestRelease].versionId);
    if r != cur.latestRelease { assert ReleaseOrder(db.releases[r], db.releases[cur.latestRelease], db.versions); }
  }

  lemma OtherReleaseHead(releases: Releases, cur: Current, d: nat, id: nat, row: Release)
    requires ReleaseHeadOk(releases, cur, d) && id !in releases && row.configId != d
    ensures ReleaseHeadOk(releases[id := row], cur, d)
  {
    ReleaseNumbersGrow(releases, id, row, d);
    hide ReleaseNumbers;
  }

  lemma OwnReleaseHead(releases: Releases, cur: Current, c: nat, id: nat, row: Release)
    requires ReleaseHeadOk(releases, cur, c) && id !in releases && id != 0 && row.configId == c
    requires row.version == (if cur.latestRelease == 0 then 0 else releases[cur.latestRelease].version) + 1
    ensures ReleaseHeadOk(releases[id := row], Current(cur.latestVersion, id, cur.latestRelease), c)
  {
    ReleaseNumbersGrow(releases, id, row, c);
    if cur.latestRelease != 0 { assert releases[cur.latestRelease].version in ReleaseNumbers(releases, c); }
    hide ReleaseNumbers;
  }

  // A release that follows every other of its config can be added.
  lemma ReleaseAppended(releases: Releases, versions: Versions, id: nat, row: Release)
    requires ReleasesOk(releases, versions) && ReleaseNamesVersion(row, versions) && id !in releases
    requires forall r :: r in releases ==> ReleaseNamesVersion(releases[r], versions)
    requires forall r :: r in releases && releases[r].configId == row.configId ==>
      releases[r].version < row.version && versions[releases[r].versionId].version < versions[row.versionId].version
    ensures ReleasesOk(releases[id := row], versions) && !ReleaseTaken(releases, row)
  {
  }

  lemma NewReleaseRows(db: Tables, c: nat, info: ConfigInfo)
    requires TablesOk(db) && c in db.currents && !UpToDate(db, c)
    requires db.currents[c].latestVersion in db.versions
    requires db.currents[c].latestRelease != 0 ==> db.currents[c].latestRelease in db.releases
    ensures ReleasesOk(db.releases[db.nextId := NewRelease(db, c, info)], db.versions)
    ensures !ReleaseTaken(db.releases, NewRelease(db, c, info))
  {
    var row := NewRelease(db, c, info);
    assert ReleaseNamesVersion(row, db.versions) by { HeadRowsExist(db, c); }
    assert db.nextId !in db.releases && forall r :: r in db.releases ==>
      ReleaseNamesVersion(db.releases[r], db.versions);
    forall r | r in db.releases && db.releases[r].configId == c
      ensures db.releases[r].version < row.version
      ensures db.versions[db.releases[r].versionId].version < db.versions[row.versionId].version
    {
      NextReleaseIsNewest(db, c, info, r);
    }
    hide InfosOk, VersionKeysOk, VersionsOk, CurrentsOk, ReleasesOk, UpToDate, ReleaseTaken;
    ReleaseAppended(db.releases, db.versions, db.nextId, row);
  }

  // The prerequisites of a release row.
  ghost predicate Releasable(db: Tables, c: nat) {
    && c in db.currents && db.currents[c].latestVersion in db.versions && db.currents[c].latestVersion != 0
    && (db.currents[c].latestRelease != 0 ==> db.currents[c].latestRelease in db.releases)
    && (db.currents[c].latestRelease == 0 ==> db.currents[c].preRelease == 0)
    && db.nextId !in db.releases && db.nextId != 0
  }

  lemma NewOwnHead(db: Tables, c: nat, info: ConfigInfo)
    requires Releasable(db, c) && VersionHeadOk(db.versions, db.currents[c], c) &&
      ReleaseHeadOk(db.releases, db.currents[c], c)
    ensures var tx := WithRelease(db, c, info);
      VersionHeadOk(tx.versions, tx.currents[c], c) && ReleaseHeadOk(tx.releases, tx.currents[c], c)
  {
    hide ReleaseHeadOk, ExactlyUpTo, VersionNumbers;
    OwnReleaseHead(db.releases, db.currents[c], c, db.nextId, NewRelease(db, c, info));
  }

  lemma NewOtherHead(db: Tables, c: nat, info: ConfigInfo, d: nat)
    requires Releasable(db, c) && d != c && d in db.currents
    requires VersionHeadOk(db.versions, db.currents[d], d) && ReleaseHeadOk(db.releases, db.currents[d], d)
    ensures var tx := WithRelease(db, c, info);
      VersionHeadOk(tx.versions, tx.currents[d], d) && ReleaseHeadOk(tx.releases, tx.currents[d], d)
  {
    hide ReleaseHeadOk, VersionHeadOk;
    OtherReleaseHead(db.releases, db.currents[d], d, db.nextId, NewRelease(db, c, info));
  }

  lemma NewReleaseHeads(db: Tables, c: nat, info: ConfigInfo, d: nat)
    requires TablesOk(db) && c in db.currents && d in db.currents
    requires db.currents[c].latestVersion in db.versions
    requires db.currents[c].latestRelease != 0 ==> db.currents[c].latestRelease in db.releases
    ensures var tx := WithRelease(db, c, info);
      VersionHeadOk(tx.versions, tx.currents[d], d) && ReleaseHeadOk(tx.releases, tx.currents[d], d)
  {
    hide InfosOk, VersionKeysOk, VersionsOk, ReleasesOk, ReleaseHeadOk, VersionHeadOk, WithRelease, ReleaseNamesVersion;
    HeadRowsExist(db, c);
    HeadRowsExist(db, d);
    assert Releasable(db, c);
    hide TablesOk, Releasable;
    if d == c { NewOwnHead(db, c, info); } else { NewOtherHead(db, c, info, d); }
  }

  lemma NewReleaseKeeps(db: Tables, c: nat, info: ConfigInfo)
    requires TablesOk(db) && c in db.currents && !UpToDate(db, c)
    ensures VersionHeadOk(db.versions, db.currents[c], c) && ReleaseHeadOk(db.releases, db.currents[c], c)
    ensures TablesOk(WithRelease(db, c, info))
    ensures !ReleaseTaken(db.releases, NewRelease(db, c, info))
  {
    hide IdsOk, InfosOk, VersionKeysOk, VersionsOk, ReleasesOk, VersionHeadOk, ReleaseHeadOk, NewRelease,
      ReleaseNamesVersion;
    HeadRowsExist(db, c);
    NewReleaseRows(db, c, info);
    NewReleaseIds(db, c, info);
    var tx := WithRelease(db, c, info);
    assert tx.currents.Keys == db.currents.Keys;
    forall d | d in tx.currents
      ensures VersionHeadOk(tx.versions, tx.currents[d], d) && ReleaseHeadOk(tx.releases, tx.currents[d], d)
    {
      NewReleaseHeads(db, c, info, d);
    }
  }

  lemma NewReleaseIds(db: Tables, c: nat, info: ConfigInfo)
    requires IdsOk(db) && c in db.currents && db.currents[c].latestVersion in db.versions
    requires db.currents[c].latestRelease != 0 ==> db.currents[c].latestRelease in db.releases
    ensures IdsOk(WithRelease(db, c, info))
  {
  }
}
