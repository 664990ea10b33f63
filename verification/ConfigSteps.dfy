// One step of each operation keeps the invariant, whatever the request, the
// environment and the point at which the step is cut short.
module ConfigSteps {
  import opened ConfigModel
  import opened ConfigProofs
  import opened Folders
  import Paths

  // --- Files ---

  // No committed version has a file in the slot for this key and number.
  ghost predicate FreeSlot(versions: Versions, i: ConfigInfo, version: nat) {
    && TwoFolders(KeyOf(i))
    && (forall v :: v in versions ==>
          TwoFolders(RowKey(versions[v])) && (versions[v].version != version || Apart(RowKey(versions[v]), KeyOf(i))))
  }

  lemma OwnFilesOnly(row: ConfigVersion, i: ConfigInfo, version: nat)
    requires row.version != version || Apart(RowKey(row), KeyOf(i))
    ensures VersionFile(row) !in {DataPath(i, version), ReplacementPath(i, version)}
    ensures ReplacementFile(row) !in {DataPath(i, version), ReplacementPath(i, version)}
  {
    hide Folder, Paths.FilePath;
    var (c, r) := (Paths.CONFIG_TOP, Paths.REPLACEMENT_TOP);
    VersionPathIff(c, row.site, row.ns, row.name, row.version, c, i.site, i.ns, i.name, version);
    VersionPathIff(c, row.site, row.ns, row.name, row.version, r, i.site, i.ns, i.name, version);
    VersionPathIff(r, row.site, row.ns, row.name, row.version, c, i.site, i.ns, i.name, version);
    VersionPathIff(r, row.site, row.ns, row.name, row.version, r, i.site, i.ns, i.name, version);
  }

  lemma DataAndReplacementApart(i: ConfigInfo, version: nat)
    requires TwoFolders(KeyOf(i))
    ensures DataPath(i, version) != ReplacementPath(i, version)
  {
    hide Folder, Paths.FilePath;
    VersionPathIff(Paths.CONFIG_TOP, i.site, i.ns, i.name, version, Paths.REPLACEMENT_TOP, i.site, i.ns, i.name,
      version);
  }

  // Writing into a free slot, successfully or not, harms no committed version.
  lemma WriteKeeps(versions: Versions, files: map<string, string>, i: ConfigInfo, version: nat,
                   path: string, content: string, fails: bool, torn: Torn)
    requires FilesOk(versions, files) && FreeSlot(versions, i, version)
    requires path == DataPath(i, version) || path == ReplacementPath(i, version)
    ensures FilesOk(versions, WriteFile(files, path, content, fails, torn))
  {
    hide VersionFile, ReplacementFile, DataPath, ReplacementPath, TwoFolders, Apart;
    forall v | v in versions ensures RowStored(versions[v], WriteFile(files, path, content, fails, torn)) {
      OwnFilesOnly(versions[v], i, version);
      assert RowStored(versions[v], files);
    }
  }

  // What storing data promises: committed versions keep their files, and the new
  // files have the returned digests.
  ghost predicate StoredSafely(versions: Versions, i: ConfigInfo, version: nat, st: Stored) {
    && FilesOk(versions, st.files)
    && (st.ok ==> Holds(st.files, DataPath(i, version), st.digest))
    && (st.ok && st.replaceDigest != "" ==> Holds(st.files, ReplacementPath(i, version), st.replaceDigest))
  }

  lemma TwoWrites(files: map<string, string>, p: string, x: string, d: string, y: string, torn: Torn)
    requires p != d
    ensures var files2 := WriteFile(WriteFile(files, p, x, false, torn), d, y, false, torn);
      Holds(files2, p, DigestOf(x)) && Holds(files2, d, DigestOf(y))
  {
  }

  lemma RefusedDataKeeps(versions: Versions, files: map<string, string>, req: Request, version: nat, w: World)
    requires FilesOk(versions, files) && FreeSlot(versions, req.info, version) && FromTemplate(req)
    requires w.merged.None? || w.abortAt == AtReplacement
    ensures StoredSafely(versions, req.info, version, StoreData(files, req, version, w))
  {
    hide DataPath, ReplacementPath, FilesOk, FreeSlot, FromTemplate, WriteFile, Holds;
    WriteKeeps(versions, files, req.info, version, ReplacementPath(req.info, version), req.replaceData, true, w.torn);
  }

  lemma TemplatedDataKeeps(versions: Versions, files: map<string, string>, req: Request, version: nat, w: World)
    requires FilesOk(versions, files) && FreeSlot(versions, req.info, version) && FromTemplate(req)
    requires w.merged.Some? && w.abortAt != AtReplacement
    ensures StoredSafely(versions, req.info, version, StoreData(files, req, version, w))
  {
    hide DataPath, ReplacementPath, FilesOk, FreeSlot, FromTemplate, WriteFile, Holds, DigestOf, TwoFolders, KeyOf;
    FreeSlotIsOwn(versions, req.info, version);
    DataAndReplacementApart(req.info, version);
    var (p, d) := (ReplacementPath(req.info, version), DataPath(req.info, version));
    WriteKeeps(versions, files, req.info, version, p, req.replaceData, false, w.torn);
    var files1 := WriteFile(files, p, req.replaceData, false, w.torn);
    WriteKeeps(versions, files1, req.info, version, d, w.merged.value, w.abortAt == AtData, w.torn);
    TwoWrites(files, p, req.replaceData, d, w.merged.value, w.torn);
  }

  lemma PlainDataKeeps(versions: Versions, files: map<string, string>, req: Request, version: nat, w: World)
    requires FilesOk(versions, files) && FreeSlot(versions, req.info, version) && !FromTemplate(req)
    ensures StoredSafely(versions, req.info, version, StoreData(files, req, version, w))
  {
    hide DataPath, ReplacementPath, FilesOk, FreeSlot;
    WriteKeeps(versions, files, req.info, version, DataPath(req.info, version), req.data, w.abortAt == AtData, w.torn);
  }

  lemma StoreDataKeeps(versions: Versions, files: map<string, string>, req: Request, version: nat, w: World)
    requires FilesOk(versions, files) && FreeSlot(versions, req.info, version)
    ensures StoredSafely(versions, req.info, version, StoreData(files, req, version, w))
  {
    hide *;
    if !FromTemplate(req) {
      PlainDataKeeps(versions, files, req, version, w);
    } else if w.merged.None? || w.abortAt == AtReplacement {
      RefusedDataKeeps(versions, files, req, version, w);
    } else {
      TemplatedDataKeeps(versions, files, req, version, w);
    }
  }

  lemma FreeSlotIsOwn(versions: Versions, i: ConfigInfo, version: nat)
    requires FreeSlot(versions, i, version)
    ensures TwoFolders(KeyOf(i))
  {
  }

  lemma RowAdded(versions: Versions, files: map<string, string>, id: nat, row: ConfigVersion)
    requires FilesOk(versions, files) && RowStored(row, files)
    ensures FilesOk(versions[id := row], files)
  {
    hide RowStored;
  }

  lemma RowsAreApart(db: Tables, v: nat)
    requires TablesOk(db) && v in db.versions
    ensures TwoFolders(RowKey(db.versions[v])) && db.versions[v].configId in db.infos
    ensures forall c :: c in db.infos && c != db.versions[v].configId ==>
      Apart(RowKey(db.versions[v]), KeyOf(db.infos[c]))
    ensures RowKey(db.versions[v]) == KeyOf(db.infos[db.versions[v].configId])
  {
    hide TwoFolders, Apart;
  }

  // A named key that shares no file with any config there is.
  ghost predicate NewKey(infos: Infos, i: ConfigInfo) {
    i.name != "" && TwoFolders(KeyOf(i)) && forall c :: c in infos ==> Apart(KeyOf(infos[c]), KeyOf(i))
  }

  // Nothing is stored under such a key.
  lemma UnusedKeyIsFree(db: Tables, i: ConfigInfo, version: nat)
    requires TablesOk(db) && NewKey(db.infos, i)
    ensures FreeSlot(db.versions, i, version)
  {
    hide TwoFolders, Apart, TablesOk;
    forall v | v in db.versions ensures TwoFolders(RowKey(db.versions[v])) && Apart(RowKey(db.versions[v]), KeyOf(i)) {
      RowsAreApart(db, v);
    }
  }

  // The number after a config's newest one is free.
  lemma NextNumberIsFree(db: Tables, c: nat, i: ConfigInfo)
    requires TablesOk(db) && c in db.infos && SameKey(i, db.infos[c])
    ensures c in db.currents && db.currents[c].latestVersion in db.versions
    ensures FreeSlot(db.versions, i, db.versions[db.currents[c].latestVersion].version + 1)
  {
    HeadRowsExist(db, c);
    var next := db.versions[db.currents[c].latestVersion].version + 1;
    hide TwoFolders, Apart;
    assert TwoFolders(KeyOf(i));
    forall v | v in db.versions
      ensures TwoFolders(RowKey(db.versions[v])) &&
        (db.versions[v].version != next || Apart(RowKey(db.versions[v]), KeyOf(i)))
    {
      RowsAreApart(db, v);
      if db.versions[v].configId == c { NewestVersion(db.versions, db.currents[c], c, v); }
    }
  }

  // --- Adding ---

  function WithConfig(db: Tables, info: ConfigInfo, row: ConfigVersion): Tables {
    var c, v := db.nextId, db.nextId + 1;
    Tables(db.infos[c := info], db.versions[v := row], db.currents[c := Current(v, 0, 0)], db.releases, v + 1)
  }

  lemma NewConfigHeads(db: Tables, row: ConfigVersion)
    requires TablesOk(db) && row.configId == db.nextId && row.version == 1
    ensures VersionHeadOk(db.versions[db.nextId + 1 := row], Current(db.nextId + 1, 0, 0), db.nextId)
    ensures ReleaseHeadOk(db.releases, Current(db.nextId + 1, 0, 0), db.nextId)
  {
    hide TwoFolders, Apart, VersionHeadOk, ReleaseOrder;
    assert VersionNumbers(db.versions, db.nextId) == {};
    assert forall r :: r in db.releases ==> ReleaseNamesVersion(db.releases[r], db.versions);
    assert ReleaseNumbers(db.releases, db.nextId) == {};
    FirstHead(db.versions, db.nextId, row);
  }

  lemma FirstHead(versions: Versions, c: nat, row: ConfigVersion)
    requires VersionNumbers(versions, c) == {} && c + 1 !in versions && row.configId == c && row.version == 1
    ensures VersionHeadOk(versions[c + 1 := row], Current(c + 1, 0, 0), c)
  {
    VersionNumbersGrow(versions, c + 1, row, c);
    hide VersionNumbers;
  }

  lemma NewInfoKeeps(infos: Infos, c: nat, info: ConfigInfo)
    requires InfosOk(infos) && NewKey(infos, info) && c !in infos
    ensures InfosOk(infos[c := info])
  {
    hide TwoFolders, FolderOf;
    assert forall d :: d in infos ==> Apart(KeyOf(info), KeyOf(infos[d]));
    hide Apart;
  }

  lemma FirstVersionKeeps(versions: Versions, infos: Infos, c: nat, info: ConfigInfo, row: ConfigVersion)
    requires VersionKeysOk(versions, infos) && VersionsOk(versions) && c !in infos && c + 1 !in versions
    requires row.configId == c && row.version == 1 && OfConfig(row, info)
    requires row.replaceDigest != "" ==> row.tplId != 0
    ensures VersionKeysOk(versions[c + 1 := row], infos[c := info]) && VersionsOk(versions[c + 1 := row])
  {
  }

  lemma NewConfigRows(db: Tables, info: ConfigInfo, row: ConfigVersion)
    requires TablesOk(db) && NewKey(db.infos, info)
    requires row.configId == db.nextId && row.version == 1 && OfConfig(row, info)
    requires row.replaceDigest != "" ==> row.tplId != 0
    ensures var t := WithConfig(db, info, row);
      InfosOk(t.infos) && VersionKeysOk(t.versions, t.infos) && VersionsOk(t.versions) &&
        ReleasesOk(t.releases, t.versions)
  {
    hide NewKey, InfosOk, VersionKeysOk, VersionsOk, VersionHeadOk, ReleaseHeadOk, ReleasesOk;
    NewInfoKeeps(db.infos, db.nextId, info);
    FirstVersionKeeps(db.versions, db.infos, db.nextId, info, row);
    ReleasesSurvive(db.releases, db.versions, db.versions[db.nextId + 1 := row]);
  }

  lemma NewConfigKeeps(db: Tables, info: ConfigInfo, row: ConfigVersion)
    requires TablesOk(db) && NewKey(db.infos, info)
    requires row.configId == db.nextId && row.version == 1 && OfConfig(row, info)
    requires row.replaceDigest != "" ==> row.tplId != 0
    ensures TablesOk(WithConfig(db, info, row))
  {
    hide InfosOk, VersionKeysOk, VersionsOk, ReleasesOk, VersionHeadOk, ReleaseHeadOk, NewKey;
    NewConfigRows(db, info, row);
    NewConfigHeads(db, row);
    var t := WithConfig(db, info, row);
    assert t.currents.Keys == t.infos.Keys;
    forall d | d in t.currents
      ensures VersionHeadOk(t.versions, t.currents[d], d) && ReleaseHeadOk(t.releases, t.currents[d], d)
    {
      if d != db.nextId {
        assert VersionHeadOk(db.versions, db.currents[d], d);
        OtherVersionHead(db.versions, db.currents[d], d, db.nextId + 1, row);
      }
    }
  }

  lemma BurntIdsKeep(db: Tables, n: nat)
    requires TablesOk(db) && db.nextId <= n
    ensures TablesOk(db.(nextId := n))
  {
    hide InfosOk, VersionKeysOk, VersionsOk, ReleasesOk, VersionHeadOk, ReleaseHeadOk;
  }

  function Rendered(req: Request, w: World): Request
    requires w.render.Some?
  {
    req.(info := req.info.(status := CREATED, tplNs := w.render.value))
  }

  lemma AddedRowsKeep(s: Server, req: Request, w: World)
    requires Inv(s) && NewKey(s.db.infos, req.info) && w.render.Some?
    ensures var st := StoreData(s.files, Rendered(req, w), 1, w);
      var t := WithConfig(s.db, req.info.(status := CREATED), FirstVersion(s.db.nextId, Rendered(req, w).info, st, w));
      FilesOk(s.db.versions, st.files) && (st.ok ==> TablesOk(t) && FilesOk(t.versions, st.files))
  {
    hide TablesOk, FilesOk, TwoFolders, Apart, StoreData, RowStored, FreeSlot, ReleasesOk;
    var rendered := Rendered(req, w);
    var info := req.info.(status := CREATED);
    assert NewKey(s.db.infos, rendered.info) && NewKey(s.db.infos, info);
    UnusedKeyIsFree(s.db, rendered.info, 1);
    StoreDataKeeps(s.db.versions, s.files, rendered, 1, w);
    var st := StoreData(s.files, rendered, 1, w);
    if st.ok {
      var row := FirstVersion(s.db.nextId, rendered.info, st, w);
      RowIsStored(row, rendered.info, 1, st);
      RowAdded(s.db.versions, st.files, s.db.nextId + 1, row);
      NewConfigKeeps(s.db, info, row);
    }
  }

  // A config of another key than every other shares no file with them either.
  ghost predicate FitsIn(infos: Infos, i: ConfigInfo) {
    TwoFolders(KeyOf(i)) && forall c :: c in infos ==> SameKey(infos[c], i) || Apart(KeyOf(infos[c]), KeyOf(i))
  }

  // Adding a config keeps the invariant.
  lemma AddKeeps(s: Server, req: Request, w: World)
    requires Inv(s) && FitsIn(s.db.infos, req.info)
    ensures Inv(AddConfig(s, req, w).0)
  {
    hide TablesOk, FilesOk, TwoFolders, Apart, StoreData, FirstVersion;
    BurntIdsKeep(s.db, s.db.nextId + 1);
    BurntIdsKeep(s.db, s.db.nextId + 2);
    IdsStartAtOne(s.db);
    if ValidRequest(req.info) && !KeyTaken(s.db.infos, req.info, 0) && w.render.Some? {
      assert NewKey(s.db.infos, req.info);
      AddedRowsKeep(s, req, w);
    }
  }

  lemma IdsStartAtOne(db: Tables)
    requires TablesOk(db)
    ensures 0 !in db.infos
  {
  }

  lemma RowIsStored(row: ConfigVersion, i: ConfigInfo, version: nat, st: Stored)
    requires OfConfig(row, i) && row.version == version
    requires row.digest == st.digest && Holds(st.files, DataPath(i, version), st.digest)
    requires row.replaceDigest == "" || row.replaceDigest == st.replaceDigest
    requires st.replaceDigest != "" ==> Holds(st.files, ReplacementPath(i, version), st.replaceDigest)
    ensures RowStored(row, st.files)
  {
    hide Paths.FilePath;
  }

  // --- Updating ---

  lemma UpdateHeadsKeeps(db: Tables, tx: Tables, c: nat, info: ConfigInfo, cur: Current, w: World)
    requires TablesOk(db) && db.nextId <= tx.nextId
    requires TablesOk(PutCurrent(PutInfo(tx, c, info), c, cur))
    ensures TablesOk(UpdateHeads(db, tx, c, info, cur, w).0)
    ensures UpdateHeads(db, tx, c, info, cur, w).0 in {Undo(db, tx), PutCurrent(PutInfo(tx, c, info), c, cur)}
  {
    hide TablesOk;
    BurntIdsKeep(db, tx.nextId);
  }

  lemma PutSameCurrent(db: Tables, c: nat)
    requires c in db.currents
    ensures PutCurrent(db, c, db.currents[c]) == db
  {
    assert db.currents[c := db.currents[c]] == db.currents;
  }

  // A stored update either leaves the versions alone or adds the next one,
  // whose file is in place.
  lemma UpdateRowsKeep(s: Server, c: nat, info: ConfigInfo, rendered: ConfigInfo, st: Stored, w: World)
    requires Inv(s) && c in s.db.infos && c in s.db.currents && s.db.currents[c].latestVersion in s.db.versions
    requires SameKey(info, s.db.infos[c]) && SameKey(rendered, s.db.infos[c])
    requires FilesOk(s.db.versions, st.files)
    requires var n := s.db.versions[s.db.currents[c].latestVersion].version + 1;
      && Holds(st.files, DataPath(rendered, n), st.digest)
      && (st.replaceDigest != "" ==> Holds(st.files, ReplacementPath(rendered, n), st.replaceDigest))
    ensures var r := UpdateRows(s.db, c, info, rendered, st, w).0;
      TablesOk(r) && FilesOk(r.versions, st.files)
  {
    hide TablesOk, FilesOk, RowStored, Holds, UpdateHeads, KeyTaken, VersionTaken;
    var db, cur := s.db, s.db.currents[c];
    var was := db.versions[cur.latestVersion];
    if !NeedNewVersion(was, rendered, st.digest, st.replaceDigest) {
      PutInfoKeeps(db, c, info);
      PutSameCurrent(PutInfo(db, c, info), c);
      UpdateHeadsKeeps(db, db, c, info, cur, w);
    } else {
      var row := NextVersion(c, was, rendered, st, w);
      RowIsStored(row, rendered, was.version + 1, st);
      RowAdded(db.versions, st.files, db.nextId, row);
      NewVersionKeeps(db, c, row);
      var info1 := if info.status != CREATED then info.(status := UPDATED) else info;
      PutInfoKeeps(WithVersion(db, c, row), c, info1);
      assert PutInfo(WithVersion(db, c, row), c, info1)
          == PutCurrent(PutInfo(AddVersion(db, row), c, info1), c, cur.(latestVersion := db.nextId));
      UpdateHeadsKeeps(db, AddVersion(db, row), c, info1, cur.(latestVersion := db.nextId), w);
    }
  }

  // An update that does not rename its config keeps the invariant.
  lemma UpdateKeeps(s: Server, c: nat, req: Request, w: World)
    requires Inv(s) && (c in s.db.infos ==> SameKey(req.info, s.db.infos[c]))
    ensures Inv(UpdateConfig(s, c, req, w).0)
  {
    hide FilesOk, StoreData, UpdateRows, InfosOk, VersionKeysOk, VersionsOk, ReleasesOk, VersionHeadOk, ReleaseHeadOk,
      FreeSlot, Holds;
    if w.render.Some? && c in s.db.currents {
      var rendered := req.(info := req.info.(tplNs := w.render.value));
      NextNumberIsFree(s.db, c, rendered.info);
      var n := s.db.versions[s.db.currents[c].latestVersion].version + 1;
      StoreDataKeeps(s.db.versions, s.files, rendered, n, w);
      var st := StoreData(s.files, rendered, n, w);
      if st.ok { UpdateRowsKeep(s, c, req.info, rendered.info, st, w); }
    }
  }

  // --- Rolling back ---

  // The new version repeats the previous release's version, file and all.
  lemma RollbackRowKeeps(s: Server, c: nat, pre: nat, creator: string, w: World)
    requires Inv(s) && c in s.db.infos && c in s.db.currents && s.db.currents[c].latestVersion in s.db.versions
    requires pre in s.db.versions && s.db.versions[pre].configId == c
    requires VersionFile(s.db.versions[pre]) in s.files
    requires s.db.versions[pre].tplId != 0 ==> ReplacementFile(s.db.versions[pre]) in s.files
    ensures var p := s.db.versions[pre];
      var row := RollbackVersion(p, s.db.versions[s.db.currents[c].latestVersion], creator);
      var files1 := WriteFile(s.files, VersionFile(row), s.files[VersionFile(p)], w.abortAt == AtData, w.torn);
      var files2 := WriteFile(files1, ReplacementFile(row), if p.tplId != 0 then s.files[ReplacementFile(p)] else "",
                              w.abortAt == AtReplacement, w.torn);
      && NextRow(s.db, c, row) && FilesOk(s.db.versions, files1) && FilesOk(s.db.versions, files2)
      && (w.abortAt != AtData && w.abortAt != AtReplacement ==>
        RowStored(row, files2) && files2[VersionFile(row)] == s.files[VersionFile(p)])
  {
    hide FilesOk, Paths.FilePath, InfosOk, VersionHeadOk, ReleaseHeadOk, ReleasesOk, FreeSlot, RowStored;
    var p := s.db.versions[pre];
    var info := s.db.infos[c];
    var row := RollbackVersion(p, s.db.versions[s.db.currents[c].latestVersion], creator);
    NextNumberIsFree(s.db, c, info);
    assert VersionFile(row) == DataPath(info, row.version) &&
      ReplacementFile(row) == ReplacementPath(info, row.version);
    FreeSlotIsOwn(s.db.versions, info, row.version);
    DataAndReplacementApart(info, row.version);
    var data := s.files[VersionFile(p)];
    var replaceData := if p.tplId != 0 then s.files[ReplacementFile(p)] else "";
    var files1 := WriteFile(s.files, VersionFile(row), data, w.abortAt == AtData, w.torn);
    var files2 := WriteFile(files1, ReplacementFile(row), replaceData, w.abortAt == AtReplacement, w.torn);
    WriteKeeps(s.db.versions, s.files, info, row.version, VersionFile(row), data, w.abortAt == AtData, w.torn);
    WriteKeeps(s.db.versions, files1, info, row.version, ReplacementFile(row), replaceData, w.abortAt == AtReplacement,
      w.torn);
    StoredRow(s.db.versions, s.files, pre);
    if w.abortAt != AtData && w.abortAt != AtReplacement { CopiedRowStored(p, row, s.files, files2, replaceData); }
  }

  lemma StoredRow(versions: Versions, files: map<string, string>, v: nat)
    requires FilesOk(versions, files) && v in versions
    ensures RowStored(versions[v], files)
  {
  }

  lemma CopiedRowStored(p: ConfigVersion, row: ConfigVersion, files: map<string, string>, files2: map<string, string>,
      replaceData: string)
    requires RowStored(p, files) && row.digest == p.digest && row.replaceDigest == p.replaceDigest
    requires files2 == files[VersionFile(row) := files[VersionFile(p)]][ReplacementFile(row) := replaceData]
    requires VersionFile(row) != ReplacementFile(row)
    requires p.replaceDigest != "" ==> ReplacementFile(p) in files && replaceData == files[ReplacementFile(p)]
    ensures RowStored(row, files2)
  {
    hide Paths.FilePath;
  }

  lemma RolledBackTables(s: Server, c: nat, row: ConfigVersion)
    requires TablesOk(s.db) && NextRow(s.db, c, row)
    ensures var t := PutInfo(WithVersion(s.db, c, row), c, s.db.infos[c].(status := UPDATED));
      TablesOk(t) && t.versions == s.db.versions[s.db.nextId := row]
  {
    hide InfosOk, VersionKeysOk, VersionsOk, ReleasesOk, VersionHeadOk, ReleaseHeadOk;
    NewVersionKeeps(s.db, c, row);
    PutInfoKeeps(WithVersion(s.db, c, row), c, s.db.infos[c].(status := UPDATED));
  }

  // The rows a rollback reads exist.
  lemma RollbackSource(db: Tables, c: nat)
    requires TablesOk(db) && c in db.currents
    ensures c in db.infos && db.currents[c].latestVersion in db.versions
    ensures db.currents[c].preRelease != 0 ==>
      && db.currents[c].preRelease in db.releases && db.releases[db.currents[c].preRelease].versionId in db.versions
      && db.versions[db.releases[db.currents[c].preRelease].versionId].configId == c
      && db.versions[db.releases[db.currents[c].preRelease].versionId].digest ==
        db.releases[db.currents[c].preRelease].digest
  {
    HeadRowsExist(db, c);
    assert ReleasesOk(db.releases, db.versions);
    hide InfosOk, VersionKeysOk, VersionsOk;
  }

  lemma RolledBackKeeps(s: Server, c: nat, pre: nat, creator: string, w: World)
    requires Inv(s) && c in s.db.infos && c in s.db.currents && s.db.currents[c].latestVersion in s.db.versions
    requires pre in s.db.versions && s.db.versions[pre].configId == c
    requires VersionFile(s.db.versions[pre]) in s.files
    requires s.db.versions[pre].tplId != 0 ==> ReplacementFile(s.db.versions[pre]) in s.files
    ensures var p := s.db.versions[pre];
      var row := RollbackVersion(p, s.db.versions[s.db.currents[c].latestVersion], creator);
      var files1 := WriteFile(s.files, VersionFile(row), s.files[VersionFile(p)], w.abortAt == AtData, w.torn);
      var files2 := WriteFile(files1, ReplacementFile(row), if p.tplId != 0 then s.files[ReplacementFile(p)] else "",
                              w.abortAt == AtReplacement, w.torn);
      var t := PutInfo(WithVersion(s.db, c, row), c, s.db.infos[c].(status := UPDATED));
      && FilesOk(s.db.versions, files1) && FilesOk(s.db.versions, files2)
      && (w.abortAt != AtData && w.abortAt != AtReplacement ==> TablesOk(t) && FilesOk(t.versions, files2))
  {
    hide TablesOk, FilesOk, Paths.FilePath, RowStored, NextRow;
    RollbackRowKeeps(s, c, pre, creator, w);
    var row := RollbackVersion(s.db.versions[pre], s.db.versions[s.db.currents[c].latestVersion], creator);
    RolledBackTables(s, c, row);
    RolledBackFiles(s, row, w);
  }

  // A rollback keeps the invariant.
  lemma RollbackKeeps(s: Server, c: nat, versionId: nat, creator: string, w: World)
    requires Inv(s)
    ensures Inv(RollbackConfig(s, c, versionId, creator, w).0)
  {
    hide TablesOk, FilesOk, VersionFile, ReplacementFile, RollbackVersion, VersionTaken, WriteFile, MergeInfo,
      MergeCurrent;
    BurntIdsKeep(s.db, s.db.nextId + 1);
    if c in s.db.currents {
      RollbackSource(s.db, c);
      var cur := s.db.currents[c];
      if cur.preRelease != 0 {
        var pre := s.db.releases[cur.preRelease].versionId;
        var p := s.db.versions[pre];
        if VersionFile(p) in s.files && (p.tplId != 0 ==> ReplacementFile(p) in s.files) {
          RolledBackKeeps(s, c, pre, creator, w);
        }
      }
    }
  }

  lemma RolledBackFiles(s: Server, row: ConfigVersion, w: World)
    ensures forall files: map<string, string> :: FilesOk(s.db.versions, files) && RowStored(row, files) ==>
              FilesOk(s.db.versions[s.db.nextId := row], files)
  {
    hide RowStored;
  }

  // --- Releasing ---

  // Config c looks the same in both states.
  ghost predicate SameConfig(db: Tables, tx: Tables, c: nat) {
    && db.versions == tx.versions
    && c in db.currents && c in tx.currents && db.currents[c] == tx.currents[c]
    && c in db.infos && c in tx.infos && db.infos[c] == tx.infos[c]
    && (db.currents[c].latestRelease in db.releases ==>
          && db.currents[c].latestRelease in tx.releases
          && db.releases[db.currents[c].latestRelease] == tx.releases[db.currents[c].latestRelease])
  }

  // Config c's newest version has become its newest release, and what was its
  // newest release has become the previous one.
  ghost predicate Released(was: Tables, now: Tables, c: nat) {
    && c in was.currents && c in now.currents && c in now.infos
    && now.versions == was.versions
    && now.currents[c].latestVersion == was.currents[c].latestVersion
    && now.currents[c].preRelease == was.currents[c].latestRelease
    && UpToDate(now, c)
    && now.infos[c].status == RELEASED
  }

  lemma ReleaseIntoMeans(db: Tables, tx: Tables, c: nat, w: World)
    requires TablesOk(db) && TablesOk(tx) && SameConfig(db, tx, c)
    ensures var r := ReleaseInto(db, tx, c, db.infos[c], w);
      && VersionHeadOk(tx.versions, tx.currents[c], c)
      && (tx.currents[c].latestRelease != 0 ==> tx.currents[c].latestRelease in tx.releases)
      && (if UpToDate(tx, c) then r == (tx, Failed(NoUpdates))
          else if w.abortAt == AtRelease then r == (tx, Failed(External))
          else r == (PutInfo(WithRelease(tx, c, db.infos[c]), c, db.infos[c].(status := RELEASED)), Done))
  {
    hide TablesOk, UpToDate, NewRelease, WithRelease, ReleaseInto, VersionHeadOk, ReleaseHeadOk, ReleaseTaken,
      ReleaseNamesVersion;
    HeadRowsExist(tx, c);
    HeadRowsExist(db, c);
    if !UpToDate(tx, c) { NewReleaseKeeps(tx, c, db.infos[c]); }
    ReleaseIntoUnfolds(db, tx, c, w);
  }

  lemma ReleaseIntoUnfolds(db: Tables, tx: Tables, c: nat, w: World)
    requires SameConfig(db, tx, c) && tx.currents[c].latestVersion in tx.versions
    requires db.currents[c].latestRelease != 0 ==> db.currents[c].latestRelease in db.releases
    requires !UpToDate(tx, c) ==> !ReleaseTaken(tx.releases, NewRelease(tx, c, db.infos[c]))
    ensures ReleaseInto(db, tx, c, db.infos[c], w) ==
      if UpToDate(tx, c) then (tx, Failed(NoUpdates))
      else if w.abortAt == AtRelease then (tx, Failed(External))
      else (PutInfo(WithRelease(tx, c, db.infos[c]), c, db.infos[c].(status := RELEASED)), Done)
  {
    hide ReleaseTaken;
  }

  lemma ReleaseIntoKeeps(db: Tables, tx: Tables, c: nat, w: World)
    requires TablesOk(db) && TablesOk(tx) && SameConfig(db, tx, c)
    ensures var r := ReleaseInto(db, tx, c, db.infos[c], w);
      && TablesOk(r.0) && tx.nextId <= r.0.nextId && r.0.versions == tx.versions
      && (r.1 == Done <==> !UpToDate(tx, c) && w.abortAt != AtRelease)
      && (r.1 == Failed(NoUpdates) <==> UpToDate(tx, c))
      && r.1 in {Done, Failed(NoUpdates), Failed(External)}
      && (r.1 == Done ==> Released(tx, r.0, c))
  {
    hide InfosOk, VersionKeysOk, VersionsOk, ReleasesOk, CurrentsOk, VersionHeadOk, ReleaseInto;
    ReleaseIntoMeans(db, tx, c, w);
    if !UpToDate(tx, c) && w.abortAt != AtRelease {
      HeadRowsExist(tx, c);
      NewReleaseKeeps(tx, c, db.infos[c]);
      PutInfoKeeps(WithRelease(tx, c, db.infos[c]), c, db.infos[c].(status := RELEASED));
      ReleasedMeans(tx, c, db.infos[c]);
    }
  }

  lemma ReleasedMeans(tx: Tables, c: nat, info: ConfigInfo)
    requires c in tx.currents && c in tx.infos && tx.currents[c].latestVersion in tx.versions && tx.nextId != 0
    requires tx.currents[c].latestVersion != 0
    requires if tx.currents[c].latestRelease == 0 then tx.currents[c].preRelease == 0
      else tx.currents[c].latestRelease in tx.releases
    ensures Released(tx, PutInfo(WithRelease(tx, c, info), c, info.(status := RELEASED)), c)
  {
  }

  // Releasing a config keeps the invariant.
  lemma ReleaseKeeps(s: Server, c: nat, w: World)
    requires Inv(s)
    ensures Inv(ReleaseConfig(s, c, w).0)
  {
    hide FilesOk, InfosOk, IdsOk, VersionKeysOk, VersionsOk, ReleasesOk, VersionHeadOk, ReleaseHeadOk, ReleaseInto;
    if Visible(s.db.infos, c) {
      ReleaseIntoKeeps(s.db, s.db, c, w);
      BurntIdsKeep(s.db, ReleaseInto(s.db, s.db, c, s.db.infos[c], w).0.nextId);
    }
  }
}
