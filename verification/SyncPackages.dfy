// A namespace release seen from an agent: the package it stored, unpacked.
module SyncPackages {
  import opened FileMapper
  import opened SyncServer
  import opened ConfigModel
  import opened ConfigProofs
  import opened Folders
  import ConfigRuns
  import ConfigSteps

  // files lists the entries of the package, each once, in some order.
  ghost predicate Lists(files: seq<File>, package: set<(string, string)>) {
    && (forall e :: e in package <==> File(e.0, e.1) in files)
    && (forall i, j :: 0 <= i < j < |files| ==> files[i] != files[j])
  }

  ghost predicate NamespaceDone(s: Server, site: string, ns: string, ids: seq<nat>, w: World) {
    && Inv(s) && ConfigRuns.StatusOk(s.db) && PendingRows(s.db.infos, site, ns, ids)
    && ReleaseNamespace(s, site, ns, ids, w).1 == Done && w.abortAt != AtCommit
  }

  // The entry of config c in a package.
  ghost predicate EntryOf(s: Server, c: nat, f: File) {
    && ConfigRuns.HasHead(s.db, c) && VersionFile(ConfigRuns.HeadRow(s.db, c)) in s.files
    && f == File(ConfigRuns.HeadRow(s.db, c).name, s.files[VersionFile(ConfigRuns.HeadRow(s.db, c))])
  }

  lemma PackageEntries(s: Server, site: string, ns: string, ids: seq<nat>, w: World, files: seq<File>)
    requires NamespaceDone(s, site, ns, ids, w)
    requires (site, ns) in ReleaseNamespace(s, site, ns, ids, w).0.packages
    requires Lists(files, ReleaseNamespace(s, site, ns, ids, w).0.packages[(site, ns)])
    ensures forall f :: f in files <==> exists c :: c in ids && EntryOf(s, c, f)
  {
    ConfigRuns.NamespaceReleases(s, site, ns, ids, w);
    hide Inv, ConfigRuns.StatusOk, ReleaseNamespace, VersionFile, ConfigSteps.Released, ConfigSteps.SameConfig;
    var package := ReleaseNamespace(s, site, ns, ids, w).0.packages[(site, ns)];
    forall f ensures f in files <==> exists c :: c in ids && EntryOf(s, c, f) {
      assert (f.name, f.content) in package <==> f in files;
    }
  }

  lemma HeadRowKey(db: Tables, c: nat)
    requires TablesOk(db) && ConfigRuns.HasHead(db, c)
    ensures OfConfig(ConfigRuns.HeadRow(db, c), db.infos[c])
  {
    hide IdsOk, InfosOk, VersionsOk, ReleasesOk, ReleaseHeadOk;
    HeadRowsExist(db, c);
  }

  // Configs of one namespace have different names, so have the package's files.
  lemma PackageNamesDistinct(s: Server, site: string, ns: string, ids: seq<nat>, files: seq<File>)
    requires Inv(s) && PendingRows(s.db.infos, site, ns, ids)
    requires forall i, j :: 0 <= i < j < |files| ==> files[i] != files[j]
    requires forall f :: f in files <==> exists c :: c in ids && EntryOf(s, c, f)
    ensures DistinctNames(files)
  {
    hide FilesOk, VersionFile, IdsOk, VersionKeysOk, VersionsOk, ReleasesOk, CurrentsOk, TwoFolders, FolderOf;
    forall i, j | 0 <= i < j < |files| ensures files[i].name != files[j].name {
      assert files[i] in files && files[j] in files;
      var c :| c in ids && EntryOf(s, c, files[i]);
      var d :| d in ids && EntryOf(s, d, files[j]);
      HeadRowKey(s.db, c);
      HeadRowKey(s.db, d);
      var (x, y) := (s.db.infos[c], s.db.infos[d]);
      assert files[i].name == files[j].name ==> KeyOf(x) == KeyOf(y);
    }
  }

  // A namespace release reaches an agent that unpacks its package: whatever the
  // mapper held and whatever the order of the files, it then holds the digest
  // of the new release of every config released.
  lemma PackageDelivers(s: Server, site: string, ns: string, ids: seq<nat>, w: World, files: seq<File>, mapper: Mapper,
      c: nat)
    requires NamespaceDone(s, site, ns, ids, w) && c in ids
    requires (site, ns) in ReleaseNamespace(s, site, ns, ids, w).0.packages
    requires Lists(files, ReleaseNamespace(s, site, ns, ids, w).0.packages[(site, ns)])
    ensures var db := ReleaseNamespace(s, site, ns, ids, w).0.db;
      && HasRelease(db, c)
      && DigestIn(Updated(mapper, ns, Changed(mapper, ns, files, DigestOf)), FileOf(db, c).ns, FileOf(db, c).name) ==
        FileOf(db, c).digest
  {
    hide Inv, ConfigRuns.StatusOk, ReleaseNamespace, VersionFile, Changed, Updated, ConfigSteps.Released, Pending;
    ConfigRuns.NamespaceReleases(s, site, ns, ids, w);
    PackageEntries(s, site, ns, ids, w, files);
    PackageNamesDistinct(s, site, ns, ids, files);
    var f := File(ConfigRuns.HeadRow(s.db, c).name, s.files[VersionFile(ConfigRuns.HeadRow(s.db, c))]);
    assert EntryOf(s, c, f);
    UnpackedIsRecorded(mapper, ns, files, DigestOf, f);
    ReleasedEntry(s, site, ns, ids, w, c);
  }

  // The new release of config c has the digest of its packed content.
  lemma ReleasedEntry(s: Server, site: string, ns: string, ids: seq<nat>, w: World, c: nat)
    requires NamespaceDone(s, site, ns, ids, w) && c in ids && ConfigRuns.HasHead(s.db, c) &&
      VersionFile(ConfigRuns.HeadRow(s.db, c)) in s.files
    ensures var db := ReleaseNamespace(s, site, ns, ids, w).0.db;
      && HasRelease(db, c) && FileOf(db, c).ns == ns && FileOf(db, c).name == ConfigRuns.HeadRow(s.db, c).name
      && FileOf(db, c).digest == DigestOf(s.files[VersionFile(ConfigRuns.HeadRow(s.db, c))])
  {
    var s' := ReleaseNamespace(s, site, ns, ids, w).0;
    ConfigRuns.NamespaceReleases(s, site, ns, ids, w);
    PendingIsThere(s.db.infos, site, ns, ids, c);
    hide *;
    NamespaceInv(s, site, ns, ids, w);
    ConfigRuns.NewestFileStored(s, c);
    ConfigRuns.InvTables(s);
    ConfigRuns.InvTables(s');
    HeadRowKey(s.db, c);
    SameRelease(s.db, s'.db, c);
    KeyFields(s, s', ns, c);
  }

  lemma NamespaceInv(s: Server, site: string, ns: string, ids: seq<nat>, w: World)
    requires NamespaceDone(s, site, ns, ids, w)
    ensures Inv(s) && Inv(ReleaseNamespace(s, site, ns, ids, w).0)
  {
    hide Inv, ReleaseNamespace, ConfigRuns.StatusOk;
    ConfigRuns.NamespaceKeeps(s, site, ns, ids, w);
  }

  lemma PendingIsThere(infos: Infos, site: string, ns: string, ids: seq<nat>, c: nat)
    requires PendingRows(infos, site, ns, ids) && c in ids
    ensures c in infos && infos[c].ns == ns
  {
  }

  lemma KeyFields(s: Server, s': Server, ns: string, c: nat)
    requires ConfigRuns.HasHead(s.db, c) && s.db.infos[c].ns == ns &&
      OfConfig(ConfigRuns.HeadRow(s.db, c), s.db.infos[c])
    requires HasRelease(s'.db, c) && OfConfig(ConfigRuns.HeadRow(s.db, c), s'.db.infos[c])
    requires FileOf(s'.db, c).digest == ConfigRuns.HeadRow(s.db, c).digest
    requires Holds(s.files, VersionFile(ConfigRuns.HeadRow(s.db, c)), ConfigRuns.HeadRow(s.db, c).digest)
    ensures FileOf(s'.db, c).ns == ns && FileOf(s'.db, c).name == ConfigRuns.HeadRow(s.db, c).name
    ensures FileOf(s'.db, c).digest == DigestOf(s.files[VersionFile(ConfigRuns.HeadRow(s.db, c))])
  {
    hide VersionFile, DigestOf;
  }

  lemma SameHead(db: Tables, db': Tables, c: nat)
    requires ConfigSteps.Released(db, db', c) && ConfigRuns.HasHead(db, c)
    ensures ConfigRuns.HasHead(db', c) && ConfigRuns.HeadRow(db', c) == ConfigRuns.HeadRow(db, c)
    ensures HasRelease(db', c) && db'.releases[db'.currents[c].latestRelease].versionId == db'.currents[c].latestVersion
  {
  }

  // A released config's newest release names the version that was its head.
  lemma SameRelease(db: Tables, db': Tables, c: nat)
    requires TablesOk(db) && TablesOk(db') && ConfigSteps.Released(db, db', c) && ConfigRuns.HasHead(db, c)
    ensures HasRelease(db', c) && OfConfig(ConfigRuns.HeadRow(db, c), db'.infos[c])
    ensures FileOf(db', c).digest == ConfigRuns.HeadRow(db, c).digest
  {
    hide TablesOk, ConfigSteps.Released;
    SameHead(db, db', c);
    HeadRowKey(db', c);
    ConfigRuns.ReleaseNamed(db', db'.currents[c].latestRelease);
  }
}
