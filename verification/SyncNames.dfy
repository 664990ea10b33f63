// Synchronisation with a config server: what the names of sites, namespaces and
// files make of it. A site is taken for what its connection key says, a
// namespace for what the URL says.
module SyncNames {
  import opened Wrappers
  import opened FileMapper
  import opened SyncServer
  import opened Sync
  import opened SyncRuns
  import opened ConfigModel
  import opened ConfigProofs
  import opened Urls
  import ConfigRuns
  import ConfigSteps
  import Clusters
  import Decimal
  import D = DownloadQueue
  import F = Folders
  import Paths

  function SettingOf(s: Server, site: string, known: string, others: set<string>, taken: set<string>): Setting {
    Setting(s.files, site, Catalogue(s.db, known), others, taken)
  }

  // --- The released files of a consistent manager ---

  // The version behind a release has the config's key and the release's digest.
  lemma RowOfRelease(db: Tables, c: nat)
    requires TablesOk(db) && HasRelease(db, c)
    ensures var release := db.releases[db.currents[c].latestRelease];
      var row := db.versions[release.versionId];
      OfConfig(row, db.infos[c]) && row.digest == release.digest
  {
    hide F.FolderOf, F.Apart, IdsOk, VersionsOk, VersionHeadOk, ReleaseNamesVersion;
    HeadRowsExist(db, c);
    assert ReleaseNamesVersion(db.releases[db.currents[c].latestRelease], db.versions);
    ReleaseRow(db.releases[db.currents[c].latestRelease], db.versions);
  }

  lemma ReleaseRow(release: Release, versions: Versions)
    requires ReleaseNamesVersion(release, versions)
    ensures release.versionId in versions
    ensures versions[release.versionId].configId == release.configId
    ensures versions[release.versionId].digest == release.digest
  {
  }

  // The path at which the store keeps the released version of the file.
  function PathOf(site: string, f: Wanted): string { Paths.FilePath(Paths.CONFIG_TOP, site, f.ns, f.name, f.version) }

  lemma ReleasedFile(s: Server, site: string, f: Wanted)
    requires Inv(s) && f in Catalogue(s.db, site)
    ensures IsVersion(f.version) && '/' !in f.version && Paths.Plain(f.version) && f.digest != ""
    ensures PathOf(site, f) in s.files && DigestOf(s.files[PathOf(site, f)]) == f.digest
  {
    var c :| c in s.db.infos && OfSite(s.db, site, c) && HasRelease(s.db, c) && f == FileOf(s.db, c);
    RowOfRelease(s.db, c);
    var row := s.db.versions[s.db.releases[s.db.currents[c].latestRelease].versionId];
    hide TablesOk, FilesOk;
    ConfigSteps.StoredRow(s.db.versions, s.files, s.db.releases[s.db.currents[c].latestRelease].versionId);
    Decimal.PrintThenValue(row.version);
    Paths.DecimalIsPlain(row.version);
    hide Paths.FilePath;
    assert VersionFile(row) == PathOf(site, f);
  }

  lemma ReleasedName(s: Server, site: string, f: Wanted)
    requires Inv(s) && f in Catalogue(s.db, site)
    ensures f.name != ""
  {
    var c :| c in s.db.infos && OfSite(s.db, site, c) && HasRelease(s.db, c) && f == FileOf(s.db, c);
    assert TablesOk(s.db) && InfosOk(s.db.infos);
    hide FilesOk, IdsOk, VersionKeysOk, VersionsOk, ReleasesOk, CurrentsOk;
  }

  // In a consistent manager the requests for a site's released files have keys
  // that tell them apart: files of one key would share a folder.
  lemma RequestsApart(s: Server, site: string)
    requires Inv(s)
    ensures D.KeysApart(Requests(Catalogue(s.db, site)))
  {
    var catalogue := Catalogue(s.db, site);
    forall a, b | a in Requests(catalogue) && b in Requests(catalogue) && D.AddKey(a) == D.AddKey(b) ensures a == b {
      var f :| f in catalogue && a == ReqOf(f);
      var g :| g in catalogue && b == ReqOf(g);
      if f != g { SameKeySameFile(s, site, f, g); }
    }
    hide Catalogue;
  }

  lemma SameKeySameFile(s: Server, site: string, f: Wanted, g: Wanted)
    requires Inv(s) && f in Catalogue(s.db, site) && g in Catalogue(s.db, site)
    requires D.AddKey(ReqOf(f)) == D.AddKey(ReqOf(g))
    ensures f == g
  {
    ReleasedFile(s, site, f);
    ReleasedFile(s, site, g);
    D.SameKeyIff(ReqOf(f), ReqOf(g));
    F.SlashedNameFolder(Paths.CONFIG_TOP, site, f.ns, f.name);
    F.SlashedNameFolder(Paths.CONFIG_TOP, site, g.ns, g.name);
    assert TablesOk(s.db);
    hide Inv, TablesOk, Catalogue, F.Folder, F.Normal, PathOf;
    if f != g { CatalogueApart(s.db, site, f, g); }
  }

  // The released files of any site have digests and one name and one key each.
  lemma ManagerIsGood(s: Server, site: string, known: string, others: set<string>, taken: set<string>)
    requires Inv(s)
    ensures Good(SettingOf(s, site, known, others, taken))
  {
    var catalogue := Catalogue(s.db, known);
    forall f, g | f in catalogue && g in catalogue && SameFile(f, g.ns, g.name) ensures f == g {
      CatalogueKeys(s.db, known, f, g);
    }
    hide Inv, D.KeysApart;
    RequestsApart(s, known);
    forall f | f in catalogue ensures f.digest != "" { ReleasedFile(s, known, f); }
    hide Catalogue;
  }

  // --- Convergence ---

  // The site that the manager takes the agent for.
  function KnownAs(site: string, stamp: string): Option<string> { Clusters.SiteOfKey(Clusters.Key(site, stamp)) }

  ghost predicate AllSettled(a: Agent, catalogue: set<Wanted>) { forall f :: f in catalogue ==> Settled(a, f) }

  ghost predicate AllSafe(m: Setting, mapper: Mapper) { forall f :: f in m.catalogue ==> Safe(m, mapper, f) }

  ghost predicate AlwaysSettles(m: Setting, start: Agent) {
    forall events, a :: Run(m, start, events, a) && Idle(a) ==> AllSettled(a, m.catalogue)
  }

  lemma AlwaysSettlesIff(m: Setting, start: Agent)
    requires Good(m) && Idle(start) && start.downloads.keys == m.taken && start.lost == {}
    ensures AlwaysSettles(m, start) <==> AllSafe(m, start.mapper)
  {
    hide Good, Run, Idle, Safe, Settled;
    forall f | f in m.catalogue
      ensures (forall events, a :: Run(m, start, events, a) && Idle(a) ==> Settled(a, f)) <==> Safe(m, start.mapper, f)
    {
      SettlesIff(m, start, f);
    }
    if AlwaysSettles(m, start) {
      forall f | f in m.catalogue ensures Safe(m, start.mapper, f) {
        forall events, a | Run(m, start, events, a) && Idle(a) ensures Settled(a, f) {
          assert AllSettled(a, m.catalogue);
        }
      }
    }
    if AllSafe(m, start.mapper) {
      forall events, a | Run(m, start, events, a) && Idle(a) ensures AllSettled(a, m.catalogue) {
        forall f | f in m.catalogue ensures Settled(a, f) { assert Safe(m, start.mapper, f); }
      }
    }
  }

  // For every reachable manager, every site, connection and agent to start with,
  // whatever keys its queue has been left with: every run that ends idle has each
  // released file of the site the manager takes the agent for recorded or visibly
  // given up, if and only if each is safe.
  lemma ConvergesIff(ops: seq<ConfigRuns.Op>, s: Server, site: string, stamp: string, others: set<string>, start: Agent)
    requires ConfigRuns.Run(ops, s) && KnownAs(site, stamp).Some? && Idle(start) && start.lost == {}
    ensures var m := SettingOf(s, site, KnownAs(site, stamp).value, others, start.downloads.keys);
      AlwaysSettles(m, start) <==> AllSafe(m, start.mapper)
  {
    var known := KnownAs(site, stamp).value;
    hide *;
    ConfigRuns.ReachableInv(ops, s);
    ManagerIsGood(s, site, known, others, start.downloads.keys);
    AlwaysSettlesIff(SettingOf(s, site, known, others, start.downloads.keys),
      start) by { FieldsOf(s, site, known, others, start.downloads.keys); }
  }

  lemma FieldsOf(s: Server, site: string, known: string, others: set<string>, taken: set<string>)
    ensures var m := SettingOf(s, site, known, others, taken);
      m.taken == taken && m.catalogue == Catalogue(s.db, known) && m.site == site && m.files == s.files
  {
  }

  ghost predicate AllRecorded(mapper: Mapper, catalogue: set<Wanted>) {
    forall f :: f in catalogue ==> Recorded(mapper, f)
  }

  // Then, with nothing given up, the mapper holds every release digest, and the
  // next answer names no file.
  lemma Converges(ops: seq<ConfigRuns.Op>, s: Server, site: string, stamp: string, others: set<string>,
                  start: Agent, events: seq<Event>, a: Agent)
    requires ConfigRuns.Run(ops, s) && KnownAs(site, stamp).Some? && Idle(start) && start.lost == {}
    requires var m := SettingOf(s, site, KnownAs(site, stamp).value, others, start.downloads.keys);
      AllSafe(m, start.mapper) && Run(m, start, events, a) && Idle(a) && a.lost == {}
    ensures var db, known := s.db, KnownAs(site, stamp).value;
      && AllRecorded(a.mapper, Catalogue(db, known))
      && forall ids, ns, name :: Queried(db, known, ids) ==> !Has(Prune(Collect(db, ids), a.mapper), ns, name)
  {
    var known := KnownAs(site, stamp).value;
    var m := SettingOf(s, site, known, others, start.downloads.keys);
    hide *;
    ConvergesIff(ops, s, site, stamp, others, start);
    FieldsOf(s, site, known, others, start.downloads.keys);
    SettledIsRecorded(m, start, events, a);
    ConfigRuns.ReachableInv(ops, s);
    forall ids, ns, name | Queried(s.db, known, ids) ensures !Has(Prune(Collect(s.db, ids), a.mapper), ns, name) {
      AnswerNames(s, known, ids, a.mapper);
      NothingToName(m.catalogue, a.mapper, Prune(Collect(s.db, ids), a.mapper), ns, name);
    }
  }

  lemma SettledIsRecorded(m: Setting, start: Agent, events: seq<Event>, a: Agent)
    requires AlwaysSettles(m, start) && Run(m, start, events, a) && Idle(a) && a.lost == {}
    ensures AllRecorded(a.mapper, m.catalogue)
  {
    assert AllSettled(a, m.catalogue);
    hide Recorded;
    forall f | f in m.catalogue ensures Recorded(a.mapper, f) { assert Settled(a, f); }
  }

  lemma NothingToName(catalogue: set<Wanted>, content: Mapper, answer: Mapper, ns: string, name: string)
    requires Names(catalogue, content, answer) && AllRecorded(content, catalogue)
    ensures !Has(answer, ns, name)
  {
  }

  // --- Which names are served ---

  // The request reaches the file's own released bytes.
  predicate ServedOwn(m: Setting, f: Wanted) {
    var reply := Serve(m, ReqOf(f));
    reply.Found? && DigestOf(reply.content) == f.digest
  }

  lemma AskedFor(m: Setting, f: Wanted, site: string, ns: string)
    requires Reads(FileURL(m.site, f.ns, f.version, f.name)) == Asks(site, ns, f.version, f.name)
    requires var path := Paths.FilePath(Paths.CONFIG_TOP, site, ns, f.name, f.version);
      f.name != "" && path in m.files && DigestOf(m.files[path]) == f.digest
    ensures ServedOwn(m, f)
  {
    hide Reads, FileURL, Paths.FilePath, DigestOf;
  }

  // Plain sites and namespaces always are.
  lemma PlainIsServed(s: Server, site: string, others: set<string>, taken: set<string>, f: Wanted)
    requires Inv(s) && f in Catalogue(s.db, site) && PlainPart(site) && PlainPart(f.ns)
    ensures ServedOwn(SettingOf(s, site, site, others, taken), f)
  {
    ReleasedFile(s, site, f);
    ReleasedName(s, site, f);
    PlainReads(site, f.ns, f.version, f.name);
    FieldsOf(s, site, site, others, taken);
    assert PathOf(site, f) == Paths.FilePath(Paths.CONFIG_TOP, site, f.ns, f.name, f.version);
    hide *;
    AskedFor(SettingOf(s, site, site, others, taken), f, site, f.ns);
  }

  lemma ElsewhereIsNotFound(m: Setting, f: Wanted)
    requires Reads(FileURL(m.site, f.ns, f.version, f.name)) == Elsewhere
    ensures !Serve(m, ReqOf(f)).Found?
  {
    hide Reads, FileURL;
  }

  lemma SlashesServe(m: Setting, f: Wanted)
    requires StaysInPath(m.site) && StaysInPath(f.ns) && '%' !in m.site && '%' !in f.ns && ".." !in Left(m.site, f.ns)
    requires IsVersion(f.version) && '/' !in f.version && Paths.Plain(f.version) && f.name != ""
    requires PathOf(m.site, f) in m.files && DigestOf(m.files[PathOf(m.site, f)]) == f.digest
    ensures if |Left(m.site, f.ns)| == 2 then ServedOwn(m, f) else !Serve(m, ReqOf(f)).Found?
  {
    SlashesRead(m.site, f.ns, f.version, f.name);
    if |Left(m.site, f.ns)| == 2 {
      ConfigTopIsPlain();
      SlashesSamePath(Paths.CONFIG_TOP, m.site, f.ns, f.version, f.name);
      hide Reads, FileURL, Left, StaysInPath, Paths.FilePath, DigestOf, IsVersion, ServedOwn;
      AskedFor(m, f, Left(m.site, f.ns)[0], Left(m.site, f.ns)[1]);
    } else {
      hide *;
      ElsewhereIsNotFound(m, f);
    }
  }

  // With slashes and dots that do not climb: served exactly if two segments are
  // left of site and namespace.
  lemma SlashesServedIff(s: Server, site: string, others: set<string>, taken: set<string>, f: Wanted)
    requires Inv(s) && f in Catalogue(s.db, site)
    requires StaysInPath(site) && StaysInPath(f.ns) && '%' !in site && '%' !in f.ns && ".." !in Left(site, f.ns)
    ensures var m := SettingOf(s, site, site, others, taken);
      && (ServedOwn(m, f) <==> |Left(site, f.ns)| == 2)
      && (Serve(m, ReqOf(f)).Found? ==> ServedOwn(m, f))
  {
    ReleasedFile(s, site, f);
    ReleasedName(s, site, f);
    FieldsOf(s, site, site, others, taken);
    hide Inv, Catalogue, Left, SettingOf, StaysInPath, PathOf, DigestOf, IsVersion, Serve;
    SlashesServe(SettingOf(s, site, site, others, taken), f);
  }

  lemma ConfigTopIsPlain()
    ensures F.IsTop(Paths.CONFIG_TOP) && '/' !in Paths.CONFIG_TOP && Paths.Plain(Paths.CONFIG_TOP)
  {
  }

  // With a '#' in site or namespace all files of the namespace get one content,
  // if any.
  lemma HashServesOne(m: Setting, f: Wanted, g: Wanted)
    requires f.ns == g.ns && '#' in m.site + "/" + f.ns && IsVersion(f.version) && IsVersion(g.version)
    requires Serve(m, ReqOf(f)).Found? && Serve(m, ReqOf(g)).Found?
    ensures Serve(m, ReqOf(f)) == Serve(m, ReqOf(g))
  {
    HashIgnoresFile(m.site, f.ns, f.version, f.name, g.version, g.name);
    hide Reads, FileURL, Paths.FilePath;
  }

  // With a '#' before any '?', none is served at all.
  lemma HashServesNothing(m: Setting, f: Wanted)
    requires '#' in m.site + "/" + f.ns && '?' !in Before(m.site + "/" + f.ns, '#') && IsVersion(f.version)
    ensures !Serve(m, ReqOf(f)).Found?
  {
    HashAsksNothing(m.site, f.ns, f.version, f.name);
    hide Reads, FileURL, Paths.FilePath, Before;
  }

  // A file whose namespace goes on after a '?' is looked for in the namespace
  // before it, without a version.
  lemma QuestionMarkServes(m: Setting, f: Wanted, ns: string, rest: string)
    requires f.ns == ns + "?" + rest && f.name != "" && IsVersion(f.version) && PlainPart(m.site) && PlainPart(ns)
    requires '#' !in rest && ' ' !in rest && !HasControl(rest)
    requires OneChunk(rest) && '=' !in rest && '%' !in rest && '+' !in rest
    ensures var path := Paths.FilePath(Paths.CONFIG_TOP, m.site, ns, f.name, "");
      Serve(m, ReqOf(f)) == if path in m.files then Found(m.files[path]) else Absent
  {
    QuestionMarkLosesVersion(m.site, ns, rest, f.version, f.name);
    hide Reads, FileURL, Paths.FilePath, HasControl, OneChunk, PlainPart;
  }

  // If its name ends in a version number of another file there, it is given that
  // file's bytes.
  lemma QuestionMarkServesOther(m: Setting, f: Wanted, ns: string, rest: string, name: string, version: string)
    requires f.ns == ns + "?" + rest && f.name == name + "/" + version && name != "" && IsVersion(f.version)
    requires '/' !in version && Paths.Plain(version) && PlainPart(m.site) && PlainPart(ns)
    requires '#' !in rest && ' ' !in rest && !HasControl(rest)
    requires OneChunk(rest) && '=' !in rest && '%' !in rest && '+' !in rest
    requires Paths.FilePath(Paths.CONFIG_TOP, m.site, ns, name, version) in m.files
    ensures Serve(m, ReqOf(f)) == Found(m.files[Paths.FilePath(Paths.CONFIG_TOP, m.site, ns, name, version)])
  {
    ConfigTopIsPlain();
    NamedVersionPath(Paths.CONFIG_TOP, m.site, ns, name, version);
    hide Serve, Paths.FilePath, HasControl, OneChunk, PlainPart, IsVersion;
    assert f.name != "" by { assert f.name[|name|] == '/'; }
    QuestionMarkServes(m, f, ns, rest);
  }

  // A namespace with escapes is looked for where they lead when decoded; with a
  // broken one every request is refused.
  lemma PercentServes(m: Setting, f: Wanted)
    requires PlainPart(m.site) && StaysInPath(f.ns) && IsVersion(f.version) && f.name != ""
    ensures var ns := Unescape(f.ns, false);
      && (ns.None? ==> Serve(m, ReqOf(f)) == Refused)
      && (ns.Some? && Paths.Plain(ns.value) && '/' !in ns.value ==>
            var path := Paths.FilePath(Paths.CONFIG_TOP, m.site, ns.value, f.name, f.version);
            Serve(m, ReqOf(f)) == if path in m.files then Found(m.files[path]) else Absent)
  {
    DecodedReads(m.site, f.ns, f.version, f.name);
    UnescapePlain(m.site, false);
    var ns := Unescape(f.ns, false);
    if ns.Some? && Paths.Plain(ns.value) && '/' !in ns.value {
      TwoSegments(m.site, ns.value);
      assert (ROUTE + [m.site, ns.value])[..5] == ROUTE;
    }
    hide Reads, FileURL, Paths.FilePath, Segments, Unescape, StaysInPath, IsVersion;
  }

  // --- Convergence for plain names ---

  // Shadowed, in terms of names and digests only.
  predicate NameShadowed(catalogue: set<Wanted>, mapper: Mapper, f: Wanted) {
    f.ns != f.digest && (DigestIn(mapper, f.digest, f.name) == f.digest ||
      exists g :: g in catalogue && SameFile(g, f.digest, f.name) && g.digest == f.digest)
  }

  lemma OwnSafeIff(m: Setting, mapper: Mapper, f: Wanted)
    requires f in m.catalogue && forall g :: g in m.catalogue ==> ServedOwn(m, g) && !Taken(m, g)
    ensures Safe(m, mapper, f) <==> Recorded(mapper, f) || !NameShadowed(m.catalogue, mapper, f)
  {
    forall g | g in m.catalogue ensures Yields(m, g) == Some(g.digest) && !Serve(m, ReqOf(g)).Refused? {
      assert ServedOwn(m, g);
    }
    hide Yields, Serve, ServedOwn, DigestIn, Pinned, Taken;
    assert forall g :: g in m.catalogue && SameFile(g, f.digest, f.name) && g.digest == f.digest ==> Shadows(m, g, f);
  }

  // Where site and namespaces are plain, the key comes apart and no old key is in
  // the way, only shadows are left to keep a file away.
  lemma PlainConvergesIff(ops: seq<ConfigRuns.Op>, s: Server, site: string, stamp: string, others: set<string>,
      start: Agent)
    requires ConfigRuns.Run(ops, s) && Idle(start) && start.lost == {}
    requires PlainPart(site) && Clusters.NoSplit(site + "@") && Clusters.NoSplit(stamp)
    requires forall f :: f in Catalogue(s.db, site) ==> PlainPart(f.ns) && D.AddKey(ReqOf(f)) !in start.downloads.keys
    ensures KnownAs(site, stamp) == Some(site)
    ensures AlwaysSettles(SettingOf(s, site, site, others, start.downloads.keys), start) <==>
      forall f :: f in Catalogue(s.db, site) ==>
        Recorded(start.mapper, f) || !NameShadowed(Catalogue(s.db, site), start.mapper, f)
  {
    var m := SettingOf(s, site, site, others, start.downloads.keys);
    Clusters.SiteOfKeyIff(site, stamp);
    ConfigRuns.ReachableInv(ops, s);
    FieldsOf(s, site, site, others, start.downloads.keys);
    hide ConfigRuns.Run, Inv, Catalogue, PlainPart, SettingOf, Idle, AlwaysSettles, Safe, ServedOwn, NameShadowed,
      Recorded, Clusters.NoSplit, D.AddKey;
    ConvergesIff(ops, s, site, stamp, others, start);
    forall f | f in m.catalogue ensures ServedOwn(m, f) && !Taken(m, f) {
      PlainIsServed(s, site, others, start.downloads.keys, f);
    }
    forall f | f in m.catalogue
      ensures Safe(m, start.mapper, f) <==> Recorded(start.mapper, f) || !NameShadowed(m.catalogue, start.mapper, f)
    {
      OwnSafeIff(m, start.mapper, f);
    }
  }
}
