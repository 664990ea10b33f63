// The manager's side of synchronisation: which released files an agent lacks,
// given the digests it reports.
module SyncServer {
  import opened Wrappers
  import opened ConfigModel
  import opened ConfigProofs
  import opened Folders
  import opened FileMapper
  import Decimal

  // One released file of a site.
  datatype Wanted = Wanted(ns: string, name: string, digest: string, version: string)

  // The rows behind the newest release of a config are there.
  predicate HasRelease(db: Tables, c: nat) {
    && c in db.infos && c in db.currents && db.currents[c].latestRelease != 0
    && db.currents[c].latestRelease in db.releases && db.releases[db.currents[c].latestRelease].versionId in db.versions
  }

  function FileOf(db: Tables, c: nat): Wanted
    requires HasRelease(db, c)
  {
    var release := db.releases[db.currents[c].latestRelease];
    Wanted(db.infos[c].ns, db.infos[c].name, release.digest, Decimal.Print(db.versions[release.versionId].version))
  }

  predicate OfSite(db: Tables, site: string, c: nat) { Visible(db.infos, c) && db.infos[c].site == site }

  // The released files of a site.
  function Catalogue(db: Tables, site: string): set<Wanted> {
    set c | c in db.infos && OfSite(db, site, c) && HasRelease(db, c) :: FileOf(db, c)
  }

  predicate SameFile(f: Wanted, ns: string, name: string) { f.ns == ns && f.name == name }

  // No two released files of a site share a folder, let alone a name.
  lemma CatalogueApart(db: Tables, site: string, f: Wanted, g: Wanted)
    requires TablesOk(db) && f in Catalogue(db, site) && g in Catalogue(db, site) && f != g
    ensures Apart(Key(site, f.ns, f.name), Key(site, g.ns, g.name))
  {
    var c :| c in db.infos && OfSite(db, site, c) && HasRelease(db, c) && f == FileOf(db, c);
    var d :| d in db.infos && OfSite(db, site, d) && HasRelease(db, d) && g == FileOf(db, d);
    FileOfKey(db, c);
    FileOfKey(db, d);
    hide FileOf, HasRelease, IdsOk, VersionKeysOk, VersionsOk, ReleasesOk, CurrentsOk, Apart, TwoFolders;
    assert KeyOf(db.infos[c]) == Key(site, f.ns, f.name) && KeyOf(db.infos[d]) == Key(site, g.ns, g.name);
  }

  lemma CatalogueKeys(db: Tables, site: string, f: Wanted, g: Wanted)
    requires TablesOk(db) && f in Catalogue(db, site) && g in Catalogue(db, site) && SameFile(f, g.ns, g.name)
    ensures f == g
  {
    hide TablesOk, Catalogue, FolderOf;
    if f != g { CatalogueApart(db, site, f, g); }
  }

  lemma FileOfKey(db: Tables, c: nat)
    requires HasRelease(db, c)
    ensures SameFile(FileOf(db, c), db.infos[c].ns, db.infos[c].name)
  {
  }

  // --- The full comparison ---

  datatype Collected = Collected(digests: Mapper, versions: Mapper)

  function Put(m: Mapper, ns: string, name: string, value: string): Mapper { Updated(m, ns, map[name := value]) }

  function AddFile(r: Collected, f: Wanted): Collected {
    Collected(Put(r.digests, f.ns, f.name, f.digest), Put(r.versions, f.ns, f.name, f.version))
  }

  // releasedDigest and releasedVersion after the rows ids of the query.
  function Collect(db: Tables, ids: seq<nat>): Collected {
    if ids == [] then Collected(map[], map[])
    else
      var rest := Collect(db, ids[..|ids|-1]);
      if HasRelease(db, ids[|ids|-1]) then AddFile(rest, FileOf(db, ids[|ids|-1])) else rest
  }

  // The agent reports the very digest that is released.
  predicate UpToDateFile(digests: Mapper, content: Mapper, ns: string, name: string) {
    Has(content, ns, name) && ns in digests && DigestIn(digests, ns, name) == content[ns][name]
  }

  // The versions of a namespace without the files that the agent has.
  function Kept(r: Collected, content: Mapper, ns: string): map<string, string>
    requires ns in r.versions
  {
    map name | name in r.versions[ns] && !UpToDateFile(r.digests, content, ns, name) :: r.versions[ns][name]
  }

  function Prune(r: Collected, content: Mapper): Mapper { map ns | ns in r.versions :: Kept(r, content, ns) }

  // The rows of the query, in whatever order the database returns them.
  ghost predicate Queried(db: Tables, site: string, ids: seq<nat>) { forall c :: c in ids <==> OfSite(db, site, c) }

  // The answer names exactly the released files of which the agent does not
  // report the released digest, each with its released version.
  ghost predicate Names(catalogue: set<Wanted>, content: Mapper, answer: Mapper) {
    && (forall ns, name :: Has(answer, ns, name) ==> exists f :: f in catalogue && SameFile(f, ns, name))
    && (forall f :: f in catalogue ==>
          if DigestIn(content, f.ns, f.name) == f.digest then !Has(answer, f.ns, f.name)
          else Has(answer, f.ns, f.name) && answer[f.ns][f.name] == f.version)
  }

  lemma AddFileMeans(r: Collected, f: Wanted, ns: string, name: string)
    ensures var more := AddFile(r, f);
      && (Has(more.versions, ns, name) <==> Has(r.versions, ns, name) || SameFile(f, ns, name))
      && DigestIn(more.versions, ns, name) ==
        (if SameFile(f, ns, name) then f.version else DigestIn(r.versions, ns, name))
      && DigestIn(more.digests, ns, name) == (if SameFile(f, ns, name) then f.digest else DigestIn(r.digests, ns, name))
  {
    UpdatedDigest(r.versions, f.ns, map[f.name := f.version], ns, name);
    UpdatedDigest(r.digests, f.ns, map[f.name := f.digest], ns, name);
  }

  predicate Holding(r: Collected, f: Wanted) {
    Has(r.versions, f.ns, f.name) && DigestIn(r.versions, f.ns, f.name) == f.version &&
      DigestIn(r.digests, f.ns, f.name) == f.digest
  }

  lemma {:induction false} CollectMeans(db: Tables, site: string, ids: seq<nat>)
    requires TablesOk(db) && forall c :: c in ids ==> OfSite(db, site, c)
    ensures forall c :: c in ids && HasRelease(db, c) ==> Holding(Collect(db, ids), FileOf(db, c))
    ensures forall ns, name :: Has(Collect(db, ids).versions, ns, name) ==>
      exists f :: f in Catalogue(db, site) && SameFile(f, ns, name)
    decreases |ids|
  {
    hide TablesOk, HasRelease, FileOf, AddFile, DigestIn, Has;
    if ids == [] {
      assert !exists ns, name :: Has(map[], ns, name) by { NothingHeld(); }
    } else {
      var rest, c := ids[..|ids|-1], ids[|ids|-1];
      assert ids == rest + [c];
      CollectMeans(db, site, rest);
      if HasRelease(db, c) {
        InCatalogue(db, site, c);
        forall ns, name
          ensures Has(Collect(db, ids).versions, ns, name) <==>
            Has(Collect(db, rest).versions, ns, name) || SameFile(FileOf(db, c), ns, name)
        {
          AddFileMeans(Collect(db, rest), FileOf(db, c), ns, name);
        }
        forall d | d in ids && HasRelease(db, d) ensures Holding(Collect(db, ids), FileOf(db, d)) {
          InCatalogue(db, site, d);
          AddFileMeans(Collect(db, rest), FileOf(db, c), FileOf(db, d).ns, FileOf(db, d).name);
          if SameFile(FileOf(db, c), FileOf(db, d).ns, FileOf(db, d).name) {
            CatalogueKeys(db, site, FileOf(db, c), FileOf(db, d));
          }
        }
      }
    }
  }

  lemma NothingHeld()
    ensures forall ns, name :: !Has(map[], ns, name)
  {
  }

  lemma InCatalogue(db: Tables, site: string, c: nat)
    requires OfSite(db, site, c) && HasRelease(db, c)
    ensures FileOf(db, c) in Catalogue(db, site)
  {
  }

  lemma DigestsAreNotEmpty(db: Tables, site: string, f: Wanted, files: map<string, string>)
    requires TablesOk(db) && FilesOk(db.versions, files) && f in Catalogue(db, site)
    ensures f.digest != ""
  {
    var c :| c in db.infos && OfSite(db, site, c) && HasRelease(db, c) && f == FileOf(db, c);
    var release := db.releases[db.currents[c].latestRelease];
    assert ReleaseNamesVersion(release, db.versions);
    assert RowStored(db.versions[release.versionId], files);
    hide VersionFile, ReplacementFile, OfSite, IdsOk, InfosOk, VersionKeysOk, VersionsOk, ReleasesOk, CurrentsOk,
      FilesOk;
    assert f.digest == DigestOf(files[VersionFile(db.versions[release.versionId])]);
  }

  lemma AnswerNames(s: Server, site: string, ids: seq<nat>, content: Mapper)
    requires Inv(s) && Queried(s.db, site, ids)
    ensures Names(Catalogue(s.db, site), content, Prune(Collect(s.db, ids), content))
  {
    var r := Collect(s.db, ids);
    var catalogue, answer := Catalogue(s.db, site), Prune(r, content);
    CollectMeans(s.db, site, ids);
    forall f | f in catalogue ensures f.digest != "" && Holding(r, f) {
      DigestsAreNotEmpty(s.db, site, f, s.files);
      var c :| c in s.db.infos && OfSite(s.db, site, c) && HasRelease(s.db, c) && f == FileOf(s.db, c);
    }
    hide Inv, Collect, Catalogue, HasRelease, FileOf;
    PruneNames(r, catalogue, content);
  }

  lemma PruneNames(r: Collected, catalogue: set<Wanted>, content: Mapper)
    requires forall f :: f in catalogue ==> f.digest != "" && Holding(r, f)
    requires forall ns, name :: Has(r.versions, ns, name) ==> exists f :: f in catalogue && SameFile(f, ns, name)
    ensures Names(catalogue, content, Prune(r, content))
  {
    var answer := Prune(r, content);
    assert forall ns, name :: Has(answer, ns, name) ==> Has(r.versions, ns, name);
  }

  // --- The answers in terms of the tables ---

  // The agent says that it holds this digest for the file.
  predicate Reports(content: Mapper, ns: string, name: string, digest: string) {
    ns in content && name in content[ns] && content[ns][name] == digest
  }

  // Config c of the site is not deleted and release r is its newest.
  predicate IsLive(db: Tables, site: string, c: nat, r: nat) {
    && c in db.infos && db.infos[c].site == site && db.infos[c].status != "deleted"
    && c in db.currents && db.currents[c].latestRelease == r && r != 0
  }

  // The rows of release r are there, and the answer has its version under the
  // config's name exactly if expected.
  predicate AnswersFor(db: Tables, answer: Mapper, c: nat, r: nat, expected: bool)
    requires c in db.infos
  {
    var i := db.infos[c];
    && r in db.releases && db.releases[r].versionId in db.versions
    && (expected <==> i.ns in answer && i.name in answer[i.ns])
    && (expected ==> answer[i.ns][i.name] == Decimal.Print(db.versions[db.releases[r].versionId].version))
  }

  lemma LiveHasRelease(db: Tables, site: string, c: nat, r: nat)
    requires TablesOk(db) && IsLive(db, site, c, r)
    ensures HasRelease(db, c) && OfSite(db, site, c)
    ensures r in db.releases && db.releases[r].versionId in db.versions
    ensures c in db.infos && FileOf(db, c) == FileOfRows(db, c, r)
  {
    hide InfosOk, VersionKeysOk, VersionsOk, VersionHeadOk, ReleaseNamesVersion;
    HeadRowsExist(db, c);
    assert ReleaseNamesVersion(db.releases[r], db.versions);
    ReleaseHasRow(db.releases[r], db.versions);
  }

  lemma ReleaseHasRow(release: Release, versions: Versions)
    requires ReleaseNamesVersion(release, versions)
    ensures release.versionId in versions
  {
  }

  // Nothing is named that is not live.
  ghost predicate OnlyLive(db: Tables, site: string, answer: Mapper) {
    forall ns, name :: ns in answer && name in answer[ns] ==> NamesLive(db, site, ns, name)
  }

  predicate NamesLive(db: Tables, site: string, ns: string, name: string) {
    exists c :: c in db.infos && db.infos[c].ns == ns && db.infos[c].name == name &&
      c in db.currents && IsLive(db, site, c, db.currents[c].latestRelease)
  }

  lemma CatalogueIsLive(db: Tables, site: string, answer: Mapper)
    requires forall ns, name :: Has(answer, ns, name) ==> exists f :: f in Catalogue(db, site) && SameFile(f, ns, name)
    ensures OnlyLive(db, site, answer)
  {
    forall ns, name | ns in answer && name in answer[ns] ensures NamesLive(db, site, ns, name) {
      assert Has(answer, ns, name);
      var f :| f in Catalogue(db, site) && SameFile(f, ns, name);
      var c :| c in db.infos && OfSite(db, site, c) && HasRelease(db, c) && f == FileOf(db, c);
      assert IsLive(db, site, c, db.currents[c].latestRelease);
    }
  }

  lemma NamedLive(db: Tables, site: string, content: Mapper, answer: Mapper, c: nat, r: nat)
    requires IsLive(db, site, c, r) && r in db.releases && db.releases[r].versionId in db.versions
    requires db.releases[r].digest != ""
    requires Names(Catalogue(db, site), content, answer) && FileOfRows(db, c, r) in Catalogue(db, site)
    ensures AnswersFor(db, answer, c, r,
      !Reports(content, db.infos[c].ns, db.infos[c].name, db.releases[r].digest))
  {
    var f := FileOfRows(db, c, r);
    assert if DigestIn(content, f.ns, f.name) == f.digest then !Has(answer, f.ns, f.name)
      else Has(answer, f.ns, f.name) && answer[f.ns][f.name] == f.version;
    hide Catalogue, IsLive, Names;
  }

  lemma AskedLive(db: Tables, site: string, content: Mapper, diff: Mapper, c: nat, r: nat)
    requires IsLive(db, site, c, r) && r in db.releases && db.releases[r].versionId in db.versions
    requires NamesAsked(Catalogue(db, site), content, diff) && FileOfRows(db, c, r) in Catalogue(db, site)
    ensures var (ns, name) := (db.infos[c].ns, db.infos[c].name);
      AnswersFor(db, diff, c, r, ns in content && name in content[ns] && content[ns][name] != db.releases[r].digest)
  {
    var f := FileOfRows(db, c, r);
    assert Has(content, f.ns, f.name) ==> if content[f.ns][f.name] == f.digest then !Has(diff, f.ns, f.name)
      else Has(diff, f.ns, f.name) && diff[f.ns][f.name] == f.version;
    assert Has(diff, f.ns, f.name) ==> Has(content, f.ns, f.name);
    hide Catalogue, IsLive, NamesAsked;
  }

  function FileOfRows(db: Tables, c: nat, r: nat): Wanted
    requires c in db.infos && r in db.releases && db.releases[r].versionId in db.versions
  {
    Wanted(db.infos[c].ns, db.infos[c].name, db.releases[r].digest,
      Decimal.Print(db.versions[db.releases[r].versionId].version))
  }

  // The rows of the query, in whatever order the database returns them.
  ghost predicate SiteRows(db: Tables, site: string, ids: seq<nat>) {
    forall c :: c in ids <==> c in db.infos && db.infos[c].site == site && db.infos[c].status != "deleted"
  }

  predicate LiveAnswered(db: Tables, content: Mapper, answer: Mapper, c: nat, r: nat)
    requires c in db.infos
  {
    r in db.releases &&
    AnswersFor(db, answer, c, r, !Reports(content, db.infos[c].ns, db.infos[c].name, db.releases[r].digest))
  }

  ghost predicate AllAnswered(db: Tables, site: string, content: Mapper, answer: Mapper) {
    forall c, r :: IsLive(db, site, c, r) ==> LiveAnswered(db, content, answer, c, r)
  }

  // In every consistent state: for every config of the site that is not deleted
  // and has been released, updated since or not, the full answer holds the number
  // of the version released last, unless the agent reports that release's digest;
  // and it names nothing else.
  lemma AnswerInRows(s: Server, site: string, ids: seq<nat>, content: Mapper, answer: Mapper)
    requires Inv(s) && SiteRows(s.db, site, ids) && answer == Prune(Collect(s.db, ids), content)
    ensures AllAnswered(s.db, site, content, answer) && OnlyLive(s.db, site, answer)
  {
    assert Queried(s.db, site, ids);
    AnswerNames(s, site, ids, content);
    CatalogueIsLive(s.db, site, answer);
    assert TablesOk(s.db) && FilesOk(s.db.versions, s.files);
    hide Inv, TablesOk, FilesOk, Prune, Collect, HasRelease, OfSite, IsLive, Names, AnswersFor, Catalogue, FileOf,
      Reports, OnlyLive;
    forall c, r | IsLive(s.db, site, c, r) ensures c in s.db.infos && LiveAnswered(s.db, content, answer, c, r) {
      LiveHasRelease(s.db, site, c, r);
      InCatalogue(s.db, site, c);
      DigestsAreNotEmpty(s.db, site, FileOf(s.db, c), s.files);
      NamedLive(s.db, site, content, answer, c, r);
    }
  }

  // The answer to a partial comparison: the same for the files reported with
  // another digest.
  lemma RefreshInRows(db: Tables, site: string, content: Mapper, diff: Mapper)
    requires TablesOk(db) && Refreshed(db, site, content, diff)
    ensures AllAsked(db, site, content, diff) && OnlyLive(db, site, diff)
    ensures forall ns, name :: ns in diff && name in diff[ns] ==> ns in content && name in content[ns]
  {
    hide TablesOk, Refreshed, HasRelease, OfSite, IsLive, NamesAsked, AnswersFor, Catalogue, FileOf, OnlyLive, Reports;
    RefreshNames(db, site, content, diff);
    OnlyReported(db, site, content, diff);
    forall c, r | IsLive(db, site, c, r) ensures c in db.infos && LiveAsked(db, content, diff, c, r) {
      LiveHasRelease(db, site, c, r);
      InCatalogue(db, site, c);
      AskedLive(db, site, content, diff, c, r);
    }
  }

  lemma OnlyReported(db: Tables, site: string, content: Mapper, diff: Mapper)
    requires NamesAsked(Catalogue(db, site), content, diff)
    ensures OnlyLive(db, site, diff)
    ensures forall ns, name :: ns in diff && name in diff[ns] ==> ns in content && name in content[ns]
  {
    assert forall ns, name :: Has(diff, ns, name) ==>
      Has(content, ns, name) && exists f :: f in Catalogue(db, site) && SameFile(f, ns, name);
    CatalogueIsLive(db, site, diff);
    forall ns, name | ns in diff && name in diff[ns] ensures ns in content && name in content[ns] {
      assert Has(diff, ns, name);
    }
  }

  predicate LiveAsked(db: Tables, content: Mapper, diff: Mapper, c: nat, r: nat)
    requires c in db.infos
  {
    var (ns, name) := (db.infos[c].ns, db.infos[c].name);
    r in db.releases &&
    AnswersFor(db, diff, c, r, ns in content && name in content[ns] && content[ns][name] != db.releases[r].digest)
  }

  ghost predicate AllAsked(db: Tables, site: string, content: Mapper, diff: Mapper) {
    forall c, r :: IsLive(db, site, c, r) ==> LiveAsked(db, content, diff, c, r)
  }

  // --- The handlers ---

  // fileSyncHandler, once the request is decoded and the rows are fetched.
  method FileSync(db: Tables, ids: seq<nat>, content: Mapper) returns (answer: Mapper)
    ensures answer == Prune(Collect(db, ids), content)
  {
    var releasedDigest: Mapper, releasedVersion: Mapper := map[], map[];
    for k := 0 to |ids|
      invariant Collected(releasedDigest, releasedVersion) == Collect(db, ids[..k])
    {
      assert ids[..k+1][..k] == ids[..k];
      var c := ids[k];
      if HasRelease(db, c) {
        var f := FileOf(db, c);
        if f.ns !in releasedDigest { releasedDigest := releasedDigest[f.ns := map[]]; }
        releasedDigest := releasedDigest[f.ns := releasedDigest[f.ns][f.name := f.digest]];
        if f.ns !in releasedVersion { releasedVersion := releasedVersion[f.ns := map[]]; }
        releasedVersion := releasedVersion[f.ns := releasedVersion[f.ns][f.name := f.version]];
        SamePut(Collect(db, ids[..k]), f);
      }
    }
    assert ids[..|ids|] == ids;
    answer := DropCurrent(releasedDigest, releasedVersion, content);
  }

  lemma SamePut(r: Collected, f: Wanted)
    ensures Put(r.digests, f.ns, f.name, f.digest) ==
      Ensured(r.digests, f.ns)[f.ns := Ensured(r.digests, f.ns)[f.ns][f.name := f.digest]]
    ensures Put(r.versions, f.ns, f.name, f.version) ==
      Ensured(r.versions, f.ns)[f.ns := Ensured(r.versions, f.ns)[f.ns][f.name := f.version]]
  {
    OneEntry(Ensured(r.digests, f.ns)[f.ns], f.name, f.digest);
    OneEntry(Ensured(r.versions, f.ns)[f.ns], f.name, f.version);
  }

  lemma OneEntry(m: map<string, string>, k: string, v: string)
    ensures m + map[k := v] == m[k := v]
  {
  }

  // Deletes, namespace by namespace, the files that the agent has.
  method DropCurrent(digests: Mapper, versions: Mapper, content: Mapper) returns (answer: Mapper)
    ensures answer == Prune(Collected(digests, versions), content)
  {
    answer := versions;
    ghost var r := Collected(digests, versions);
    var todo := content.Keys;
    forall ns | ns in versions && ns !in content ensures Kept(r, content, ns) == versions[ns] {
      KeptAll(r, content, ns);
    }
    hide Kept;
    while todo != {}
      invariant todo <= content.Keys && answer.Keys == versions.Keys
      invariant forall ns :: ns in answer ==> answer[ns] == if ns in todo then versions[ns] else Kept(r, content, ns)
      decreases |todo|
    {
      var ns :| ns in todo;
      todo := todo - {ns};
      if ns in digests && ns in answer {
        var rest := DropNames(digests[ns], answer[ns], content[ns]);
        KeptSome(r, content, ns);
        answer := answer[ns := rest];
      } else if ns in answer {
        KeptAll(r, content, ns);
      }
    }
  }

  lemma KeptSome(r: Collected, content: Mapper, ns: string)
    requires ns in r.versions && ns in content && ns in r.digests
    ensures Kept(r, content, ns) == map name | name in r.versions[ns] &&
      !(name in content[ns] && (if name in r.digests[ns] then r.digests[ns][name] else "") == content[ns][name]) ::
        r.versions[ns][name]
  {
  }

  lemma KeptAll(r: Collected, content: Mapper, ns: string)
    requires ns in r.versions && (ns !in content || ns !in r.digests)
    ensures Kept(r, content, ns) == r.versions[ns]
  {
  }

  method DropNames(digests: map<string, string>, versions: map<string, string>, content: map<string, string>)
    returns (rest: map<string, string>)
    ensures rest == map name | name in versions &&
      !(name in content && (if name in digests then digests[name] else "") == content[name]) :: versions[name]
  {
    rest := versions;
    var todo := content.Keys;
    while todo != {}
      invariant todo <= content.Keys
      invariant forall name :: name in rest <==>
        name in versions && !(name in content.Keys - todo &&
          (if name in digests then digests[name] else "") == content[name])
      invariant forall name :: name in rest ==> rest[name] == versions[name]
      decreases |todo|
    {
      var name :| name in todo;
      todo := todo - {name};
      if (if name in digests then digests[name] else "") == content[name] { rest := rest - {name}; }
    }
  }

  // --- The comparison of single files ---

  // fileRefreshHandler looks every file up on its own and leaves out the ones it
  // does not find or finds unchanged.
  ghost predicate Refreshed(db: Tables, site: string, content: Mapper, diff: Mapper) {
    && (forall ns, name :: Has(diff, ns, name) <==> Lacks(db, site, content, ns, name))
    && (forall ns, name, c :: Has(content, ns, name) && Outdated(db, site, content[ns][name], c, ns, name) ==>
          Has(diff, ns, name) && diff[ns][name] == FileOf(db, c).version)
  }

  // The file is reported with a digest other than the released one.
  ghost predicate Lacks(db: Tables, site: string, content: Mapper, ns: string, name: string) {
    Has(content, ns, name) && exists c :: Outdated(db, site, content[ns][name], c, ns, name)
  }

  predicate Found(db: Tables, site: string, c: nat, ns: string, name: string) {
    c in db.infos && OfSite(db, site, c) && db.infos[c].ns == ns && db.infos[c].name == name
  }

  predicate Outdated(db: Tables, site: string, digest: string, c: nat, ns: string, name: string) {
    Found(db, site, c, ns, name) && HasRelease(db, c) && FileOf(db, c).digest != digest
  }

  lemma FoundOnce(db: Tables, site: string, c: nat, d: nat, ns: string, name: string)
    requires TablesOk(db) && Found(db, site, c, ns, name) && Found(db, site, d, ns, name)
    ensures c == d
  {
    hide IdsOk, VersionKeysOk, VersionsOk, ReleasesOk, CurrentsOk, TwoFolders, FolderOf;
    assert KeyOf(db.infos[c]) == KeyOf(db.infos[d]);
  }

  // The same in terms of the released files: named are exactly those reported
  // with another digest, each with its released version.
  ghost predicate NamesAsked(catalogue: set<Wanted>, content: Mapper, diff: Mapper) {
    && (forall ns, name :: Has(diff, ns, name) ==>
      Has(content, ns, name) && exists f :: f in catalogue && SameFile(f, ns, name))
    && (forall f :: f in catalogue && Has(content, f.ns, f.name) ==>
          if content[f.ns][f.name] == f.digest then !Has(diff, f.ns, f.name)
          else Has(diff, f.ns, f.name) && diff[f.ns][f.name] == f.version)
  }

  lemma RefreshNames(db: Tables, site: string, content: Mapper, diff: Mapper)
    requires TablesOk(db) && Refreshed(db, site, content, diff)
    ensures NamesAsked(Catalogue(db, site), content, diff)
  {
    forall ns, name | Has(diff, ns, name)
      ensures Has(content, ns, name) && exists f :: f in Catalogue(db, site) && SameFile(f, ns, name)
    {
      assert Lacks(db, site, content, ns, name);
      var c :| Outdated(db, site, content[ns][name], c, ns, name);
      InCatalogue(db, site, c);
      FileOfKey(db, c);
    }
    forall f | f in Catalogue(db, site) && Has(content, f.ns, f.name)
      ensures if content[f.ns][f.name] == f.digest then !Has(diff, f.ns, f.name)
              else Has(diff, f.ns, f.name) && diff[f.ns][f.name] == f.version
    {
      AskedFile(db, site, content, diff, f);
    }
  }

  lemma AskedFile(db: Tables, site: string, content: Mapper, diff: Mapper, f: Wanted)
    requires TablesOk(db) && Refreshed(db, site, content, diff) && f in Catalogue(db, site) &&
      Has(content, f.ns, f.name)
    ensures if content[f.ns][f.name] == f.digest then !Has(diff, f.ns, f.name)
            else Has(diff, f.ns, f.name) && diff[f.ns][f.name] == f.version
  {
    hide TablesOk;
    var c :| c in db.infos && OfSite(db, site, c) && HasRelease(db, c) && f == FileOf(db, c);
    FileOfKey(db, c);
    assert Found(db, site, c, f.ns, f.name);
    forall d | Found(db, site, d, f.ns, f.name) ensures d == c { FoundOnce(db, site, c, d, f.ns, f.name); }
    hide FileOf, HasRelease, OfSite, Found;
    if content[f.ns][f.name] != f.digest {
      assert Outdated(db, site, content[f.ns][f.name], c, f.ns, f.name);
    }
  }

  method RefreshOne(db: Tables, site: string, ns: string, name: string, digest: string)
      returns (version: Option<string>)
    requires TablesOk(db)
    ensures version.Some? <==> exists c :: Outdated(db, site, digest, c, ns, name)
    ensures forall c :: Outdated(db, site, digest, c, ns, name) ==> version == Some(FileOf(db, c).version)
  {
    hide TablesOk, FileOf, HasRelease, OfSite;
    if c :| c in db.infos && Found(db, site, c, ns, name) {
      forall d | Found(db, site, d, ns, name) ensures d == c { FoundOnce(db, site, c, d, ns, name); }
      if HasRelease(db, c) && FileOf(db, c).digest != digest {
        assert Outdated(db, site, digest, c, ns, name);
        return Some(FileOf(db, c).version);
      }
    }
    return None;
  }

  // The files of the request found changed, and their versions.
  method FileRefresh(db: Tables, site: string, content: Mapper) returns (diff: Mapper)
    requires TablesOk(db)
    ensures Refreshed(db, site, content, diff)
  {
    hide TablesOk, Found, FileOf, HasRelease;
    diff := map[];
    var todo := content.Keys;
    while todo != {}
      invariant todo <= content.Keys
      invariant forall ns, name :: Has(diff, ns, name) <==> ns !in todo && Lacks(db, site, content, ns, name)
      invariant forall ns, name, c ::
        ns !in todo && Has(content, ns, name) && Outdated(db, site, content[ns][name], c, ns, name) ==>
        Has(diff, ns, name) && diff[ns][name] == FileOf(db, c).version
      decreases |todo|
    {
      var ns :| ns in todo;
      todo := todo - {ns};
      var found := RefreshNs(db, site, ns, content[ns]);
      assert forall name :: Lacks(db, site, content, ns, name) <==> name in found;
      ghost var was := diff;
      if found != map[] { diff := diff[ns := found]; }
      forall other, name ensures Has(diff, other, name) <==> other !in todo && Lacks(db, site, content, other, name) {
        if other != ns { assert Has(diff, other, name) <==> Has(was, other, name); }
        else { assert !Has(was, ns, name); }
      }
    }
  }

  method RefreshNs(db: Tables, site: string, ns: string, files: map<string, string>)
      returns (found: map<string, string>)
    requires TablesOk(db)
    ensures forall name :: name in found <==> name in files && exists c :: Outdated(db, site, files[name], c, ns, name)
    ensures forall name, c :: name in files && Outdated(db, site, files[name], c, ns, name) ==>
      name in found && found[name] == FileOf(db, c).version
  {
    hide TablesOk, Found, FileOf, HasRelease;
    found := map[];
    var todo := files.Keys;
    while todo != {}
      invariant todo <= files.Keys
      invariant forall name :: name in found <==>
        name in files.Keys - todo && exists c :: Outdated(db, site, files[name], c, ns, name)
      invariant forall name, c :: name in files.Keys - todo && Outdated(db, site, files[name], c, ns, name) ==>
        name in found && found[name] == FileOf(db, c).version
      decreases |todo|
    {
      var name :| name in todo;
      todo := todo - {name};
      var version := RefreshOne(db, site, ns, name, files[name]);
      if version.Some? { found := found[name := version.value]; }
    }
  }
}
