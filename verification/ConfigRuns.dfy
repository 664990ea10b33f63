// Theorems about whole runs of the config server: what is true of every
// reachable state, of the status column, of namespace releases and of
// rollbacks followed by releases.
module ConfigRuns {
  import opened ConfigModel
  import opened ConfigProofs
  import opened ConfigSteps
  import opened Folders
  import Paths

  // --- Releasing several configs in one transaction ---

  ghost predicate Distinct(ids: seq<nat>) { forall i, j :: 0 <= i < j < |ids| ==> ids[i] != ids[j] }

  // Everything outside config c is as before; no release row is lost.
  ghost predicate OthersKept(tx: Tables, t: Tables, c: nat) {
    && t.versions == tx.versions
    && (forall d :: d != c && d in tx.currents ==> d in t.currents && t.currents[d] == tx.currents[d])
    && (forall d :: d != c && d in tx.infos ==> d in t.infos && t.infos[d] == tx.infos[d])
    && (forall r :: r in tx.releases ==> r in t.releases && t.releases[r] == tx.releases[r])
    && t.infos.Keys == tx.infos.Keys && t.currents.Keys == tx.currents.Keys
  }

  lemma ReleaseIntoOthers(db: Tables, tx: Tables, c: nat, w: World)
    requires TablesOk(db) && TablesOk(tx) && SameConfig(db, tx, c)
    ensures OthersKept(tx, ReleaseInto(db, tx, c, db.infos[c], w).0, c)
    ensures ReleaseInto(db, tx, c, db.infos[c], w).0.infos.Keys == tx.infos.Keys
  {
    hide InfosOk, VersionKeysOk, VersionsOk, ReleasesOk, CurrentsOk, VersionHeadOk, ReleaseInto, UpToDate;
    ReleaseIntoMeans(db, tx, c, w);
    assert tx.nextId !in tx.releases;
  }

  lemma ReleasedFrom(db: Tables, tx: Tables, t: Tables, c: nat)
    requires SameConfig(db, tx, c) && Released(tx, t, c)
    ensures Released(db, t, c)
  {
  }

  lemma OthersStaySame(db: Tables, tx: Tables, t: Tables, c: nat, d: nat)
    requires OthersKept(tx, t, c) && c != d
    ensures SameConfig(db, tx, d) ==> SameConfig(db, t, d)
    ensures Released(db, tx, d) ==> Released(db, t, d)
  {
  }

  function HeadRow(db: Tables, c: nat): ConfigVersion
    requires c in db.currents && db.currents[c].latestVersion in db.versions
  {
    db.versions[db.currents[c].latestVersion]
  }

  ghost predicate HasHead(db: Tables, c: nat) {
    c in db.infos && c in db.currents && db.currents[c].latestVersion in db.versions
  }

  // paths lists exactly the newest files of the configs, with their names.
  ghost predicate PathsOf(db: Tables, ids: seq<nat>, paths: map<string, string>)
  {
    && (forall c :: c in ids ==>
          HasHead(db, c) && VersionFile(HeadRow(db, c)) in paths &&
            paths[VersionFile(HeadRow(db, c))] == HeadRow(db, c).name)
    && (forall p :: p in paths ==> exists c :: c in ids && HasHead(db, c) && p == VersionFile(HeadRow(db, c)))
  }

  lemma HeadFilesDiffer(db: Tables, c: nat, d: nat)
    requires TablesOk(db) && HasHead(db, c) && HasHead(db, d) && c != d
    ensures VersionFile(HeadRow(db, c)) != VersionFile(HeadRow(db, d))
  {
    var (a, b) := (HeadRow(db, c), HeadRow(db, d));
    HeadRowsExist(db, c);
    HeadRowsExist(db, d);
    hide TablesOk, Folder, Paths.FilePath;
    RowsAreApart(db, db.currents[c].latestVersion);
    RowsAreApart(db, db.currents[d].latestVersion);
    VersionPathIff(Paths.CONFIG_TOP, a.site, a.ns, a.name, a.version, Paths.CONFIG_TOP, b.site, b.ns, b.name,
      b.version);
  }

  // Two configs never share their newest file, so each keeps its own name.
  lemma AddPath(db: Tables, ids: seq<nat>, c: nat, paths: map<string, string>)
    requires TablesOk(db) && HasHead(db, c) && PathsOf(db, ids, paths)
    ensures PathsOf(db, ids + [c], paths[VersionFile(HeadRow(db, c)) := HeadRow(db, c).name])
  {
    hide TablesOk, VersionFile;
    var row := HeadRow(db, c);
    var more := paths[VersionFile(row) := row.name];
    forall d | d in ids
      ensures HasHead(db, d) && VersionFile(HeadRow(db, d)) in more &&
        more[VersionFile(HeadRow(db, d))] == HeadRow(db, d).name
    {
      if d != c { HeadFilesDiffer(db, c, d); }
    }
    forall p | p in more ensures exists d :: d in ids + [c] && HasHead(db, d) && p == VersionFile(HeadRow(db, d)) {
      if p in paths {
        var d :| d in ids && HasHead(db, d) && p == VersionFile(HeadRow(db, d));
        assert d in ids + [c];
      } else {
        assert c in ids + [c];
      }
    }
  }

  lemma NothingReleased(db: Tables)
    ensures PathsOf(db, [], map[])
    ensures forall d :: d in db.currents && d in db.infos ==> SameConfig(db, db, d)
  {
  }

  lemma SameStaleness(db: Tables, tx: Tables, c: nat)
    requires c in db.currents && (db.currents[c].latestRelease != 0 ==> db.currents[c].latestRelease in db.releases)
    requires SameConfig(db, tx, c)
    ensures c in tx.currents && UpToDate(db, c) == UpToDate(tx, c)
  {
  }

  // What one transaction over several configs leaves.
  ghost predicate AllReleased(db: Tables, ids: seq<nat>, w: World)
    requires forall c :: c in ids ==> c in db.infos
  {
    var (tx, paths, out) := ReleaseAll(db, ids, w);
    && TablesOk(tx) && db.nextId <= tx.nextId && tx.versions == db.versions && tx.infos.Keys == db.infos.Keys
    && (forall d :: d in db.currents && d in db.infos && d !in ids ==> SameConfig(db, tx, d))
    && (out == Done ==> PathsOf(db, ids, paths) && forall c :: c in ids ==> Released(db, tx, c))
  }

  // The config has a version that its last release does not name.
  predicate Stale(db: Tables, c: nat) { c in db.currents && !UpToDate(db, c) }

  ghost predicate AllConfigs(db: Tables, ids: seq<nat>) { forall d :: d in ids ==> d in db.infos }

  lemma ReleaseAllSnoc(db: Tables, rest: seq<nat>, c: nat, w: World)
    requires AllConfigs(db, rest) && HasHead(db, c) && ReleaseAll(db, rest, w).2 == Done
    ensures AllConfigs(db, rest + [c])
    ensures var (tx, paths, _) := ReleaseAll(db, rest, w);
      var (t, out) := ReleaseInto(db, tx, c, db.infos[c], w);
      ReleaseAll(db, rest + [c], w) ==
        if out.Failed? then (t, paths, out) else (t, paths[VersionFile(HeadRow(db, c)) := HeadRow(db, c).name], Done)
  {
    hide ReleaseInto, VersionFile;
    var ids := rest + [c];
    assert ids[..|ids|-1] == rest && ids[|ids|-1] == c;
  }

  // What the release of the next config does on top of those already made.
  ghost predicate LoopStep(db: Tables, rest: seq<nat>, c: nat, w: World)
    requires AllConfigs(db, rest) && HasHead(db, c)
  {
    var (tx, paths, _) := ReleaseAll(db, rest, w);
    var (t, out) := ReleaseInto(db, tx, c, db.infos[c], w);
    && TablesOk(t) && db.nextId <= t.nextId && t.versions == db.versions && t.infos.Keys == db.infos.Keys
    && (forall d :: d != c && SameConfig(db, tx, d) ==> SameConfig(db, t, d))
    && (forall d :: d != c && Released(db, tx, d) ==> Released(db, t, d))
    && (out == Done ==> Released(db, t, c))
    && (out == Done <==> w.abortAt != AtRelease && Stale(db, c))
    && out in {Done, Failed(NoUpdates), Failed(External)} && (out == Failed(NoUpdates) ==> !Stale(db, c))
    && PathsOf(db, rest + [c], paths[VersionFile(HeadRow(db, c)) := HeadRow(db, c).name])
  }

  lemma NextOfLoop(db: Tables, rest: seq<nat>, c: nat, w: World)
    requires AllConfigs(db, rest) && c !in rest && c in db.infos && ReleaseAll(db, rest, w).2 == Done
    requires AllReleased(db, rest, w) && TablesOk(db)
    ensures HasHead(db, c) && LoopStep(db, rest, c, w)
  {
    hide TablesOk, Released, SameConfig, OthersKept, UpToDate, ReleaseInto, ReleaseAll, VersionFile, PathsOf;
    var (tx, paths, _) := ReleaseAll(db, rest, w);
    HeadRowsExist(db, c);
    SameStaleness(db, tx, c);
    ReleaseIntoKeeps(db, tx, c, w);
    ReleaseIntoOthers(db, tx, c, w);
    AddPath(db, rest, c, paths);
    var (t, out) := ReleaseInto(db, tx, c, db.infos[c], w);
    if out == Done { ReleasedFrom(db, tx, t, c); }
    forall d | d != c
      ensures SameConfig(db, tx, d) ==> SameConfig(db, t, d)
      ensures Released(db, tx, d) ==> Released(db, t, d)
    {
      OthersStaySame(db, tx, t, c, d);
    }
  }

  // The loop over ids, when it got to its last config.
  ghost predicate LastReached(db: Tables, ids: seq<nat>, c: nat, w: World)
    requires AllConfigs(db, ids)
  {
    var out := ReleaseAll(db, ids, w).2;
    && AllReleased(db, ids, w)
    && (out == Done <==> w.abortAt != AtRelease && Stale(db, c))
    && out in {Done, Failed(NoUpdates), Failed(External)}
    && (out == Failed(NoUpdates) ==> !Stale(db, c))
  }

  lemma OneMoreReleased(db: Tables, rest: seq<nat>, c: nat, w: World)
    requires AllConfigs(db, rest) && c !in rest && c in db.infos && ReleaseAll(db, rest, w).2 == Done
    requires AllReleased(db, rest, w) && TablesOk(db)
    ensures AllConfigs(db, rest + [c]) && LastReached(db, rest + [c], c, w)
  {
    hide TablesOk, Released, SameConfig, ReleaseInto, ReleaseAll, VersionFile, PathsOf, Stale, HasHead;
    NextOfLoop(db, rest, c, w);
    ReleaseAllSnoc(db, rest, c, w);
  }

  // Once a config has failed, the loop is over.
  ghost predicate LoopOver(db: Tables, rest: seq<nat>, c: nat, w: World)
    requires AllConfigs(db, rest) && AllConfigs(db, rest + [c])
  {
    AllReleased(db, rest + [c], w) && ReleaseAll(db, rest + [c], w) == ReleaseAll(db, rest, w)
  }

  lemma FailureEndsLoop(db: Tables, rest: seq<nat>, c: nat, w: World)
    requires AllConfigs(db, rest) && c in db.infos && ReleaseAll(db, rest, w).2.Failed?
    requires AllReleased(db, rest, w)
    ensures AllConfigs(db, rest + [c]) && LoopOver(db, rest, c, w)
  {
    hide TablesOk, Released, SameConfig, ReleaseInto, VersionFile, PathsOf;
    var ids := rest + [c];
    assert ids[..|ids|-1] == rest && ids[|ids|-1] == c;
  }

  lemma NothingToRelease(db: Tables, w: World)
    requires TablesOk(db)
    ensures AllReleased(db, [], w) && ReleaseAll(db, [], w).2 == Done
  {
    hide TablesOk, SameConfig, PathsOf;
    NothingReleased(db);
  }

  // The loop fails exactly when the environment fails it or some config has no
  // new version since its last release.
  lemma {:induction false} ReleaseAllKeeps(db: Tables, ids: seq<nat>, w: World)
    requires TablesOk(db) && Distinct(ids) && forall c :: c in ids ==> c in db.infos
    ensures AllReleased(db, ids, w)
    ensures ReleaseAll(db, ids, w).2 == Done <==>
      (ids == [] || w.abortAt != AtRelease) && forall c :: c in ids ==> Stale(db, c)
    ensures ReleaseAll(db, ids, w).2 in {Done, Failed(NoUpdates), Failed(External)}
    ensures ReleaseAll(db, ids, w).2 == Failed(NoUpdates) ==> exists c :: c in ids && !Stale(db, c)
    decreases |ids|
  {
    hide TablesOk, AllReleased, ReleaseAll, Stale;
    if ids == [] {
      NothingToRelease(db, w);
    } else {
      var rest, c := ids[..|ids|-1], ids[|ids|-1];
      assert ids == rest + [c];
      ReleaseAllKeeps(db, rest, w);
      assert c !in rest && (forall d :: d in ids <==> d in rest || d == c);
      if ReleaseAll(db, rest, w).2 == Done { OneMoreReleased(db, rest, c, w); }
        else { FailureEndsLoop(db, rest, c, w); }
    }
  }

  lemma NamespaceKeeps(s: Server, site: string, ns: string, ids: seq<nat>, w: World)
    requires Inv(s) && Distinct(ids) && forall c :: c in ids ==> c in s.db.infos
    ensures Inv(ReleaseNamespace(s, site, ns, ids, w).0)
  {
    hide TablesOk, FilesOk, PathsOf, Released, ReleaseAll, SameConfig;
    ReleaseAllKeeps(s.db, ids, w);
    BurntIdsKeep(s.db, ReleaseAll(s.db, ids, w).0.nextId);
  }

  // --- Runs ---

  datatype Op = Adding(req: Request, w: World)
              | Updating(c: nat, req: Request, w: World)
              | Releasing(c: nat, w: World)
              | RollingBack(c: nat, versionId: nat, creator: string, w: World)
              | ReleasingNamespace(site: string, ns: string, ids: seq<nat>, w: World)

  // New configs share no files with configs of other keys, updates do not
  // rename, and a namespace release gets the rows its query selects.
  ghost predicate Allowed(s: Server, op: Op) {
    match op
    case Adding(req, w) => FitsIn(s.db.infos, req.info)
    case Updating(c, req, w) => c in s.db.infos ==> SameKey(req.info, s.db.infos[c])
    case Releasing(c, w) => true
    case RollingBack(c, versionId, creator, w) => true
    case ReleasingNamespace(site, ns, ids, w) => PendingRows(s.db.infos, site, ns, ids)
  }

  ghost function Step(s: Server, op: Op): Server
    requires Allowed(s, op)
  {
    match op
    case Adding(req, w) => AddConfig(s, req, w).0
    case Updating(c, req, w) => UpdateConfig(s, c, req, w).0
    case Releasing(c, w) => ReleaseConfig(s, c, w).0
    case RollingBack(c, versionId, creator, w) => RollbackConfig(s, c, versionId, creator, w).0
    case ReleasingNamespace(site, ns, ids, w) => ReleaseNamespace(s, site, ns, ids, w).0
  }

  // s is where some run of allowed operations ends that started empty.
  ghost predicate Run(ops: seq<Op>, s: Server)
    decreases |ops|
  {
    if ops == [] then s == EMPTY
    else
      var (front, op) := (ops[..|ops|-1], ops[|ops|-1]);
      exists p :: Run(front, p) && Allowed(p, op) && s == Step(p, op)
  }

  lemma StepKeeps(s: Server, op: Op)
    requires Inv(s) && Allowed(s, op)
    ensures Inv(Step(s, op))
  {
    hide Inv, AddConfig, UpdateConfig, ReleaseConfig, RollbackConfig, ReleaseNamespace, FitsIn;
    match op
    case Adding(req, w) => AddKeeps(s, req, w);
    case Updating(c, req, w) => UpdateKeeps(s, c, req, w);
    case Releasing(c, w) => ReleaseKeeps(s, c, w);
    case RollingBack(c, versionId, creator, w) => RollbackKeeps(s, c, versionId, creator, w);
    case ReleasingNamespace(site, ns, ids, w) => NamespaceKeeps(s, site, ns, ids, w);
  }

  lemma EmptyInv()
    ensures Inv(EMPTY)
  {
  }

  // Every reachable server satisfies the invariant: version and release
  // numbering, heads, digests, release order and file agreement, whatever was
  // aborted on the way.
  lemma {:induction false} ReachableInv(ops: seq<Op>, s: Server)
    requires Run(ops, s)
    ensures Inv(s)
    decreases |ops|
  {
    hide Inv, Step, Allowed;
    if ops == [] { EmptyInv(); }
    else {
      var p :| Run(ops[..|ops|-1], p) && Allowed(p, ops[|ops|-1]) && s == Step(p, ops[|ops|-1]);
      ReachableInv(ops[..|ops|-1], p);
      StepKeeps(p, ops[|ops|-1]);
    }
  }

  // --- The status column ---

  // A config is marked released exactly when its newest version is the one last released.
  ghost predicate StatusExact(db: Tables, c: nat)
    requires c in db.infos && c in db.currents
  {
    db.infos[c].status == RELEASED <==> UpToDate(db, c)
  }

  ghost predicate StatusOk(db: Tables) {
    forall c :: c in db.infos && c in db.currents ==>
      StatusExact(db, c) && db.infos[c].status in {CREATED, UPDATED, RELEASED}
  }

  // Update requests leave the status blank or echo the stored one.
  ghost predicate Polite(s: Server, op: Op) {
    op.Updating? ==> op.req.info.status == "" || (op.c in s.db.infos && op.req.info.status == s.db.infos[op.c].status)
  }

  ghost predicate PoliteRun(ops: seq<Op>, s: Server)
    decreases |ops|
  {
    if ops == [] then s == EMPTY
    else
      var (front, op) := (ops[..|ops|-1], ops[|ops|-1]);
      exists p :: PoliteRun(front, p) && Allowed(p, op) && Polite(p, op) && s == Step(p, op)
  }

  // A new config starts as created and unreleased; a failed one leaves no row.
  ghost predicate AddEffect(db: Tables, t: Tables, info: ConfigInfo) {
    && t.releases == db.releases
    && (|| (t.infos == db.infos && t.currents == db.currents)
        || (t.infos == db.infos[db.nextId := info.(status := CREATED)] &&
          t.currents == db.currents[db.nextId := Current(db.nextId + 1, 0, 0)]))
  }

  lemma BurntAddEffect(db: Tables, info: ConfigInfo, n: nat)
    ensures AddEffect(db, db.(nextId := n), info)
  {
  }

  lemma AddedEffect(db: Tables, info: ConfigInfo, row: ConfigVersion)
    ensures AddEffect(db, WithConfig(db, info.(status := CREATED), row), info)
  {
  }

  lemma AddMeans(s: Server, req: Request, w: World)
    ensures AddEffect(s.db, AddConfig(s, req, w).0.db, req.info)
  {
    hide StoreData, KeyTaken, FirstVersion, AddEffect;
    BurntAddEffect(s.db, req.info, s.db.nextId);
    BurntAddEffect(s.db, req.info, s.db.nextId + 1);
    BurntAddEffect(s.db, req.info, s.db.nextId + 2);
    if w.render.Some? {
      var st := StoreData(s.files, Rendered(req, w), 1, w);
      AddedEffect(s.db, req.info, FirstVersion(s.db.nextId, Rendered(req, w).info, st, w));
    }
  }

  lemma AddStatus(s: Server, req: Request, w: World)
    requires TablesOk(s.db) && StatusOk(s.db)
    ensures StatusOk(AddConfig(s, req, w).0.db)
  {
    hide TablesOk, AddConfig;
    AddMeans(s, req, w);
    RunningIds(s.db);
  }

  // Whether the update of a config makes a new version, given what was stored.
  predicate MakesVersion(s: Server, c: nat, req: Request, w: World)
    requires c in s.db.currents && s.db.currents[c].latestVersion in s.db.versions && w.render.Some?
  {
    var was := s.db.versions[s.db.currents[c].latestVersion];
    var rendered := req.(info := req.info.(tplNs := w.render.value));
    var st := StoreData(s.files, rendered, was.version + 1, w);
    NeedNewVersion(was, rendered.info, st.digest, st.replaceDigest)
  }

  // What one update does to the status and the head of its config.
  ghost predicate UpdateEffect(db: Tables, t: Tables, c: nat, info: ConfigInfo, applied: bool, newVersion: bool)
    requires c in db.infos && c in db.currents
  {
    && t.infos.Keys == db.infos.Keys && t.currents.Keys == db.currents.Keys && t.releases == db.releases
    && (forall d :: d in db.infos && d != c ==> t.infos[d] == db.infos[d])
    && (forall d :: d in db.currents && d != c ==> t.currents[d] == db.currents[d])
    && (if !applied then t.infos == db.infos && t.currents == db.currents
        else if newVersion then
          && t.currents[c] == db.currents[c].(latestVersion := db.nextId)
          && t.infos[c].status == (if info.status == CREATED then CREATED else UPDATED)
        else t.currents == db.currents && t.infos[c].status == Either(info.status, db.infos[c].status))
  }

  lemma UpdateHeadsEffect(db: Tables, tx: Tables, c: nat, info: ConfigInfo, cur: Current, w: World)
    requires c in db.infos && c in db.currents && tx.infos == db.infos && tx.currents == db.currents &&
      tx.releases == db.releases
    requires cur == db.currents[c] || (cur == db.currents[c].(latestVersion := db.nextId) && db.nextId != 0)
    ensures var (t, out) := UpdateHeads(db, tx, c, info, cur, w);
      && (out == Done && w.abortAt != AtCommit ==>
            t.currents == db.currents[c := cur] && t.infos == db.infos[c := MergeInfo(db.infos[c], info)] &&
              t.releases == db.releases)
      && (!(out == Done && w.abortAt != AtCommit) ==>
        t.infos == db.infos && t.currents == db.currents && t.releases == db.releases)
  {
    hide KeyTaken, MergeInfo;
  }

  lemma UpdateRowsEffect(db: Tables, c: nat, info: ConfigInfo, rendered: ConfigInfo, st: Stored, w: World)
    requires c in db.infos && c in db.currents && db.currents[c].latestVersion in db.versions && db.nextId != 0
    ensures var (t, out) := UpdateRows(db, c, info, rendered, st, w);
      UpdateEffect(db, t, c, info, out == Done && w.abortAt != AtCommit,
                   NeedNewVersion(db.versions[db.currents[c].latestVersion], rendered, st.digest, st.replaceDigest))
  {
    hide UpdateHeads, VersionTaken, NeedNewVersion, NextVersion;
    var cur := db.currents[c];
    var was := db.versions[cur.latestVersion];
    assert db.currents[c := cur] == db.currents;
    UpdateHeadsEffect(db, db, c, info, cur, w);
    var info1 := if info.status != CREATED then info.(status := UPDATED) else info;
    UpdateHeadsEffect(db, AddVersion(db, NextVersion(c, was, rendered, st, w)), c, info1,
      cur.(latestVersion := db.nextId), w);
  }

  lemma UpdateStatus(s: Server, c: nat, req: Request, w: World)
    requires TablesOk(s.db) && c in s.db.infos
    ensures c in s.db.currents && s.db.currents[c].latestVersion in s.db.versions
    ensures var (s', out) := UpdateConfig(s, c, req, w);
      && (w.render.None? ==> out != Done)
      && UpdateEffect(s.db, s'.db, c, req.info, out == Done && w.abortAt != AtCommit, w.render.Some? &&
        MakesVersion(s, c, req, w))
  {
    hide TablesOk, StoreData, UpdateRows, NeedNewVersion, VersionHeadOk, ReleaseHeadOk, ReleaseNamesVersion,
      UpdateEffect;
    HeadRowsExist(s.db, c);
    RunningIds(s.db);
    NoEffect(s.db, c, req.info, w.render.Some? && MakesVersion(s, c, req, w));
    if w.render.Some? {
      var was := s.db.versions[s.db.currents[c].latestVersion];
      var rendered := req.(info := req.info.(tplNs := w.render.value));
      UpdateRowsEffect(s.db, c, req.info, rendered.info, StoreData(s.files, rendered, was.version + 1, w), w);
    }
  }

  lemma NoEffect(db: Tables, c: nat, info: ConfigInfo, newVersion: bool)
    requires c in db.infos && c in db.currents
    ensures UpdateEffect(db, db, c, info, false, newVersion)
  {
  }

  // Releases only name version ids already given out.
  lemma RunningIds(db: Tables)
    requires TablesOk(db)
    ensures forall r :: r in db.releases ==> db.releases[r].versionId < db.nextId
    ensures db.nextId !in db.infos && db.nextId !in db.releases && db.nextId != 0
    ensures db.currents.Keys == db.infos.Keys
  {
    forall r | r in db.releases ensures db.releases[r].versionId < db.nextId {
      assert ReleaseNamesVersion(db.releases[r], db.versions);
    }
  }

  // An update that takes effect keeps the status of its config exact if and
  // only if it makes a new version, leaves the status blank, or names
  // "released" just when the stored status does.
  lemma UpdateStatusExact(s: Server, c: nat, req: Request, w: World)
    requires TablesOk(s.db) && c in s.db.infos && c in s.db.currents && StatusExact(s.db, c)
    requires UpdateConfig(s, c, req, w).1 == Done && w.abortAt != AtCommit
    ensures w.render.Some? && s.db.currents[c].latestVersion in s.db.versions
    ensures var s' := UpdateConfig(s, c, req, w).0;
      c in s'.db.infos && c in s'.db.currents &&
      (StatusExact(s'.db, c) <==>
        || MakesVersion(s, c, req, w)
        || req.info.status == ""
        || (req.info.status == RELEASED <==> s.db.infos[c].status == RELEASED))
  {
    hide TablesOk, UpdateConfig, MakesVersion;
    UpdateStatus(s, c, req, w);
    RunningIds(s.db);
    KeysAgree(s.db);
  }

  lemma ReleaseStatus(s: Server, c: nat, w: World)
    requires TablesOk(s.db) && StatusOk(s.db)
    ensures StatusOk(ReleaseConfig(s, c, w).0.db)
  {
    hide TablesOk, StatusOk, ReleaseInto, Released, OthersKept, UpToDate;
    if Visible(s.db.infos, c) {
      KeysAgree(s.db);
      ReleaseIntoKeeps(s.db, s.db, c, w);
      ReleaseIntoOthers(s.db, s.db, c, w);
      var (t, out) := ReleaseInto(s.db, s.db, c, s.db.infos[c], w);
      BurntStatus(s.db, t);
      if out == Done { OthersStatus(s.db, t, c); }
    }
  }

  lemma KeysAgree(db: Tables)
    requires TablesOk(db)
    ensures db.currents.Keys == db.infos.Keys
    ensures forall c :: c in db.currents && db.currents[c].latestRelease != 0 ==>
      db.currents[c].latestRelease in db.releases
  {
    forall c | c in db.currents
      ensures db.currents[c].latestRelease != 0 ==> db.currents[c].latestRelease in db.releases
    {
      HeadRowsExist(db, c);
    }
  }

  lemma OthersStatus(tx: Tables, t: Tables, c: nat)
    requires OthersKept(tx, t, c) && StatusOk(tx) && Released(tx, t, c)
    requires tx.currents.Keys == tx.infos.Keys
    requires forall d :: d in tx.currents && tx.currents[d].latestRelease != 0 ==>
      tx.currents[d].latestRelease in tx.releases
    ensures StatusOk(t)
  {
  }

  lemma RollbackMeans(s: Server, c: nat, versionId: nat, creator: string, w: World)
    requires TablesOk(s.db)
    ensures var (s', out) := RollbackConfig(s, c, versionId, creator, w);
      && s'.db.releases == s.db.releases
      && (if out == Done && w.abortAt != AtCommit then
            && c in s.db.infos && c in s.db.currents
            && s'.db.currents == s.db.currents[c := s.db.currents[c].(latestVersion := s.db.nextId)]
            && s'.db.infos == s.db.infos[c := s.db.infos[c].(status := UPDATED)]
          else s'.db.currents == s.db.currents && s'.db.infos == s.db.infos)
  {
    hide TablesOk, VersionFile, ReplacementFile, RollbackVersion, VersionTaken, WriteFile;
    RunningIds(s.db);
    if c in s.db.infos { MergeStatus(s.db.infos[c], UPDATED); }
    if c in s.db.currents { MergeHead(s.db.currents[c], s.db.nextId); }
    hide MergeInfo, MergeCurrent;
  }

  lemma MergeStatus(i: ConfigInfo, status: string)
    requires status != ""
    ensures MergeInfo(i, i.(status := status)) == i.(status := status)
  {
  }

  lemma MergeHead(cur: Current, v: nat)
    requires v != 0
    ensures MergeCurrent(cur, cur.(latestVersion := v)) == cur.(latestVersion := v)
  {
  }

  lemma RollbackStatus(s: Server, c: nat, versionId: nat, creator: string, w: World)
    requires TablesOk(s.db) && StatusOk(s.db)
    ensures StatusOk(RollbackConfig(s, c, versionId, creator, w).0.db)
  {
    hide TablesOk, RollbackConfig;
    RollbackMeans(s, c, versionId, creator, w);
    RunningIds(s.db);
  }

  lemma PoliteUpdateStatus(s: Server, c: nat, req: Request, w: World)
    requires TablesOk(s.db) && StatusOk(s.db) && Polite(s, Updating(c, req, w))
    ensures StatusOk(UpdateConfig(s, c, req, w).0.db)
  {
    hide TablesOk, UpdateConfig, MakesVersion;
    KeysAgree(s.db);
    RunningIds(s.db);
    if c in s.db.infos { UpdateStatus(s, c, req, w); }
    else { UpdateMissing(s, c, req, w); }
  }

  lemma UpdateMissing(s: Server, c: nat, req: Request, w: World)
    requires c !in s.db.currents
    ensures UpdateConfig(s, c, req, w).0 == s
  {
  }

  lemma ReleaseAllStatus(db: Tables, ids: seq<nat>, w: World)
    requires TablesOk(db) && StatusOk(db) && Distinct(ids) && forall c :: c in ids ==> c in db.infos
    ensures ReleaseAll(db, ids, w).2 == Done ==> StatusOk(ReleaseAll(db, ids, w).0)
  {
    hide TablesOk, ReleaseAll, PathsOf, Released, SameConfig, StatusOk;
    ReleaseAllKeeps(db, ids, w);
    KeysAgree(db);
    if ReleaseAll(db, ids, w).2 == Done { AllReleasedStatus(db, ReleaseAll(db, ids, w).0, ids); }
  }

  lemma NamespaceStatus(s: Server, site: string, ns: string, ids: seq<nat>, w: World)
    requires TablesOk(s.db) && StatusOk(s.db) && Distinct(ids) && forall c :: c in ids ==> c in s.db.infos
    ensures StatusOk(ReleaseNamespace(s, site, ns, ids, w).0.db)
  {
    hide TablesOk, ReleaseAll, StatusOk;
    ReleaseAllStatus(s.db, ids, w);
    BurntStatus(s.db, ReleaseAll(s.db, ids, w).0);
  }

  lemma BurntStatus(db: Tables, tx: Tables)
    requires StatusOk(db)
    ensures StatusOk(Undo(db, tx))
  {
  }

  lemma AllReleasedStatus(db: Tables, tx: Tables, ids: seq<nat>)
    requires StatusOk(db) && db.infos.Keys == db.currents.Keys
    requires forall c :: c in db.currents && db.currents[c].latestRelease != 0 ==>
      db.currents[c].latestRelease in db.releases
    requires forall d :: d in db.currents && d in db.infos && d !in ids ==> SameConfig(db, tx, d)
    requires forall c :: c in ids ==> Released(db, tx, c)
    requires tx.infos.Keys == db.infos.Keys
    ensures StatusOk(tx)
  {
    forall c | c in tx.infos && c in tx.currents
      ensures StatusExact(tx, c) && tx.infos[c].status in {CREATED, UPDATED, RELEASED}
    {
      if c in ids { assert Released(db, tx, c); }
      else { assert SameConfig(db, tx, c); SameStaleness(db, tx, c); assert StatusExact(db, c); }
    }
  }

  // Over every polite run the status is exact for every config.
  lemma {:induction false} ReachableStatus(ops: seq<Op>, s: Server)
    requires PoliteRun(ops, s)
    ensures Inv(s) && StatusOk(s.db)
    decreases |ops|
  {
    if ops == [] { EmptyInv(); }
    else {
      var op := ops[|ops|-1];
      var p :| PoliteRun(ops[..|ops|-1], p) && Allowed(p, op) && Polite(p, op) && s == Step(p, op);
      ReachableStatus(ops[..|ops|-1], p);
      StepKeeps(p, op);
      PoliteStepStatus(p, op);
    }
    hide Inv, Step, Allowed, Polite, StatusOk;
  }

  lemma PoliteStepStatus(p: Server, op: Op)
    requires Inv(p) && StatusOk(p.db) && Allowed(p, op) && Polite(p, op)
    ensures StatusOk(Step(p, op).db)
  {
    hide TablesOk, FilesOk, StatusOk, Polite, AddConfig, UpdateConfig, ReleaseConfig, RollbackConfig, ReleaseNamespace,
      FitsIn;
    match op
    case Adding(req, w) => AddStatus(p, req, w);
    case Updating(c, req, w) => PoliteUpdateStatus(p, c, req, w);
    case Releasing(c, w) => ReleaseStatus(p, c, w);
    case RollingBack(c, versionId, creator, w) => RollbackStatus(p, c, versionId, creator, w);
    case ReleasingNamespace(site, ns, ids, w) => NamespaceStatus(p, site, ns, ids, w);
  }

  // --- Namespace releases ---

  // With exact statuses a namespace release never meets "no new updates" and
  // never misses a file: it succeeds unless the environment fails it.
  lemma NamespaceSucceeds(s: Server, site: string, ns: string, ids: seq<nat>, w: World)
    requires Inv(s) && StatusOk(s.db) && PendingRows(s.db.infos, site, ns, ids)
    ensures ReleaseNamespace(s, site, ns, ids, w).1 == Done
       <==> (ids == [] || w.abortAt != AtRelease) && w.abortAt != AtPackage && w.abortAt != AtNotify
    ensures ReleaseNamespace(s, site, ns, ids, w).1 in {Done, Failed(External)}
  {
    hide TablesOk, ReleaseAll, Released, SameConfig;
    ReleaseAllKeeps(s.db, ids, w);
    KeysAgree(s.db);
    forall c | c in ids ensures Stale(s.db, c) { assert Pending(s.db.infos[c], site, ns); assert StatusExact(s.db, c); }
    var (tx, paths, out) := ReleaseAll(s.db, ids, w);
    if out == Done {
      forall p | p in paths ensures p in s.files {
        var c :| c in ids && HasHead(s.db, c) && p == VersionFile(HeadRow(s.db, c));
        StoredRow(s.db.versions, s.files, s.db.currents[c].latestVersion);
      }
    }
    hide FilesOk, PathsOf, StatusOk;
  }

  // What a namespace release achieves: every pending config of the namespace
  // is released at its newest version, nothing else changes, and the package
  // holds exactly the newest contents under their names.
  lemma NamespaceReleases(s: Server, site: string, ns: string, ids: seq<nat>, w: World)
    requires Inv(s) && StatusOk(s.db) && PendingRows(s.db.infos, site, ns, ids)
    requires ReleaseNamespace(s, site, ns, ids, w).1 == Done && w.abortAt != AtCommit
    ensures var s' := ReleaseNamespace(s, site, ns, ids, w).0;
      && s'.files == s.files
      && (forall c :: c in ids ==> Released(s.db, s'.db, c))
      && (forall d :: d in s.db.infos && d in s.db.currents && d !in ids ==> SameConfig(s.db, s'.db, d))
      && (forall c :: c in ids ==> HasHead(s.db, c) && VersionFile(HeadRow(s.db, c)) in s.files)
      && (site, ns) in s'.packages
      && (forall e :: e in s'.packages[(site, ns)] <==>
            exists c :: c in ids && HasHead(s.db, c) && VersionFile(HeadRow(s.db, c)) in s.files &&
                        e == (HeadRow(s.db, c).name, s.files[VersionFile(HeadRow(s.db, c))]))
  {
    hide TablesOk, ReleaseAll, Released, SameConfig, VersionFile, FilesOk;
    ReleaseAllKeeps(s.db, ids, w);
    var (tx, paths, out) := ReleaseAll(s.db, ids, w);
    forall c | c in ids ensures HasHead(s.db, c) && VersionFile(HeadRow(s.db, c)) in s.files {
      assert PathsOf(s.db, ids, paths);
      NewestFileStored(s, c);
    }
    PackedContents(s, ids, paths);
    hide Pack, PathsOf;
  }

  lemma NewestFileStored(s: Server, c: nat)
    requires Inv(s) && HasHead(s.db, c)
    ensures Holds(s.files, VersionFile(HeadRow(s.db, c)), HeadRow(s.db, c).digest)
  {
    hide TablesOk, VersionFile;
    StoredRow(s.db.versions, s.files, s.db.currents[c].latestVersion);
  }

  lemma PackedContents(s: Server, ids: seq<nat>, paths: map<string, string>)
    requires PathsOf(s.db, ids, paths) && forall p :: p in paths ==> p in s.files
    ensures forall e :: e in Pack(s.files, paths) <==>
      exists c :: c in ids && HasHead(s.db, c) && VersionFile(HeadRow(s.db, c)) in s.files &&
                  e == (HeadRow(s.db, c).name, s.files[VersionFile(HeadRow(s.db, c))])
  {
    hide VersionFile;
    forall c | c in ids && HasHead(s.db, c) && VersionFile(HeadRow(s.db, c)) in s.files
      ensures (HeadRow(s.db, c).name, s.files[VersionFile(HeadRow(s.db, c))]) in Pack(s.files, paths)
    {
      var p := VersionFile(HeadRow(s.db, c));
      assert p in paths && paths[p] == HeadRow(s.db, c).name;
    }
  }

  // --- Rolling back and releasing ---

  // The content behind a release.
  ghost predicate Serves(s: Server, r: nat, content: string) {
    && r in s.db.releases && s.db.releases[r].versionId in s.db.versions
    && VersionFile(s.db.versions[s.db.releases[r].versionId]) in s.files
    && s.files[VersionFile(s.db.versions[s.db.releases[r].versionId])] == content
  }

  // A release row keeps serving the content its digest names.
  lemma ReleaseServesDigest(s: Server, r: nat)
    requires Inv(s) && r in s.db.releases
    ensures forall content :: Serves(s, r, content) <==> DigestOf(content) == s.db.releases[r].digest
  {
    hide TablesOk, FilesOk, VersionFile;
    ReleaseNamed(s.db, r);
    StoredRow(s.db.versions, s.files, s.db.releases[r].versionId);
    var stored := s.files[VersionFile(s.db.versions[s.db.releases[r].versionId])];
    forall content | DigestOf(content) == DigestOf(stored) ensures content == stored {
      DigestInjective(content, stored);
    }
  }

  lemma ReleaseNamed(db: Tables, r: nat)
    requires TablesOk(db) && r in db.releases
    ensures ReleaseNamesVersion(db.releases[r], db.versions)
  {
    hide InfosOk, VersionsOk, VersionKeysOk, CurrentsOk;
  }

  predicate Effective(out: Outcome, w: World) { out == Done && w.abortAt != AtCommit }

  lemma RollbackNumberIsFree(s: Server, c: nat, pre: nat, creator: string)
    requires Inv(s) && c in s.db.infos && c in s.db.currents && s.db.currents[c].latestVersion in s.db.versions
    requires pre in s.db.versions && s.db.versions[pre].configId == c
    ensures VersionFile(s.db.versions[pre]) in s.files
    ensures !VersionTaken(s.db.versions,
      RollbackVersion(s.db.versions[pre], s.db.versions[s.db.currents[c].latestVersion], creator))
  {
    StoredRow(s.db.versions, s.files, pre);
    var row := RollbackVersion(s.db.versions[pre], s.db.versions[s.db.currents[c].latestVersion], creator);
    HeadRowsExist(s.db, c);
    hide FilesOk, InfosOk, ReleasesOk, ReleaseHeadOk, CurrentsOk;
    NextRowIsNewest(s.db, c, row);
  }

  // What a rollback needs from its surroundings.
  predicate RollbackAllowed(s: Server, c: nat, pre: ConfigVersion, w: World) {
    && Visible(s.db.infos, c)
    && w.abortAt !in {AtVersion, AtData, AtReplacement, AtCurrent, AtInfo}
    && (pre.tplId != 0 ==> w.template.Template? && ReplacementFile(pre) in s.files)
  }

  // The rows a rollback reads are there.
  ghost predicate RollbackRows(s: Server, c: nat) {
    && c in s.db.currents && s.db.currents[c].latestVersion in s.db.versions && s.db.currents[c].preRelease != 0
    && s.db.currents[c].preRelease in s.db.releases &&
      s.db.releases[s.db.currents[c].preRelease].versionId in s.db.versions
  }

  lemma RollbackUnfolds(s: Server, c: nat, creator: string, w: World)
    requires RollbackRows(s, c)
    requires var pre := s.db.versions[s.db.releases[s.db.currents[c].preRelease].versionId];
      VersionFile(pre) in s.files &&
        !VersionTaken(s.db.versions, RollbackVersion(pre, s.db.versions[s.db.currents[c].latestVersion], creator))
    ensures RollbackConfig(s, c, 0, creator, w).1 == Done
       <==> RollbackAllowed(s, c, s.db.versions[s.db.releases[s.db.currents[c].preRelease].versionId], w)
  {
    hide VersionFile, ReplacementFile, VersionTaken, RollbackVersion, WriteFile, PutInfo, PutCurrent, AddVersion,
      Commit, Undo;
  }

  // A rollback of a config with a previous release succeeds exactly when the
  // config is visible, the environment lets it, and, for a version made from a
  // template, the template and the replacement values are still there.
  lemma RollbackSucceeds(s: Server, c: nat, creator: string, w: World)
    requires Inv(s) && c in s.db.currents && s.db.currents[c].preRelease != 0
    ensures RollbackRows(s, c)
    ensures RollbackConfig(s, c, 0, creator, w).1 == Done
       <==> RollbackAllowed(s, c, s.db.versions[s.db.releases[s.db.currents[c].preRelease].versionId], w)
  {
    hide *;
    InvTables(s);
    RollbackSource(s.db, c);
    RollbackRowsExist(s, c);
    RollbackNumberIsFree(s, c, s.db.releases[s.db.currents[c].preRelease].versionId, creator);
    RollbackUnfolds(s, c, creator, w);
  }

  lemma RollbackRowsExist(s: Server, c: nat)
    requires TablesOk(s.db) && c in s.db.currents && s.db.currents[c].preRelease != 0
    ensures RollbackRows(s, c)
  {
    RollbackSource(s.db, c);
    hide TablesOk;
  }

  // What a rollback leaves for the next release: a new version with the
  // previous release's digest, and the release heads as they were.
  lemma RollbackPrepares(s: Server, c: nat, creator: string, w: World)
    requires Inv(s) && Effective(RollbackConfig(s, c, 0, creator, w).1, w)
    ensures c in s.db.currents && c in s.db.infos && s.db.currents[c].preRelease in s.db.releases
    ensures var (s', cur) := (RollbackConfig(s, c, 0, creator, w).0, s.db.currents[c]);
      && Inv(s') && c in s'.db.currents && c in s'.db.infos
      && s'.db.currents[c] == cur.(latestVersion := s.db.nextId) && s'.db.releases == s.db.releases
      && HasHead(s.db, c) && HasHead(s'.db, c)
      && HeadRow(s'.db, c).digest == s.db.releases[cur.preRelease].digest
      && HeadRow(s'.db, c).version == HeadRow(s.db, c).version + 1
      && !UpToDate(s'.db, c) && Visible(s'.db.infos, c)
  {
    RollbackKeeps(s, c, 0, creator, w);
    RollbackMeans(s, c, 0, creator, w);
    RollbackSource(s.db, c);
    RunningIds(s.db);
    RollbackRow(s, c, creator, w);
    hide Inv, RollbackConfig, TablesOk;
  }

  lemma RollbackRow(s: Server, c: nat, creator: string, w: World)
    requires Inv(s) && Effective(RollbackConfig(s, c, 0, creator, w).1, w)
    ensures c in s.db.currents && s.db.currents[c].latestVersion in s.db.versions &&
      s.db.currents[c].preRelease in s.db.releases
    ensures s.db.releases[s.db.currents[c].preRelease].versionId in s.db.versions
    ensures RollbackConfig(s, c, 0, creator, w).0.db.versions == s.db.versions[s.db.nextId :=
      RollbackVersion(s.db.versions[s.db.releases[s.db.currents[c].preRelease].versionId],
        s.db.versions[s.db.currents[c].latestVersion], creator)]
  {
    hide TablesOk, FilesOk, VersionFile, ReplacementFile, RollbackVersion, VersionTaken, WriteFile, MergeInfo,
      MergeCurrent;
  }

  // When a release of a stale config succeeds, and what it leaves.
  lemma ReleaseSucceeds(s: Server, c: nat, w: World)
    requires Inv(s) && c in s.db.currents && Visible(s.db.infos, c) && !UpToDate(s.db, c)
    ensures HasHead(s.db, c)
    ensures ReleaseConfig(s, c, w).1 == Done <==> w.abortAt != AtRelease && w.abortAt != AtNotify
    ensures var (s', t) := (ReleaseConfig(s, c, w).0, ReleaseInto(s.db, s.db, c, s.db.infos[c], w).0);
      s'.files == s.files &&
        (Effective(ReleaseConfig(s, c, w).1, w) ==> w.abortAt != AtRelease && s'.db == t && Released(s.db, t, c))
  {
    hide TablesOk, ReleaseInto, Released, FilesOk;
    HeadRowsExist(s.db, c);
    ReleaseIntoKeeps(s.db, s.db, c, w);
  }

  lemma NewReleaseInPlace(db: Tables, c: nat)
    requires c in db.currents && c in db.infos && db.currents[c].latestVersion in db.versions && db.nextId != 0
    requires db.currents[c].latestRelease != 0 ==> db.currents[c].latestRelease in db.releases
    ensures var t := PutInfo(WithRelease(db, c, db.infos[c]), c, db.infos[c].(status := RELEASED));
      && Visible(t.infos, c) && c in t.currents && t.currents[c].latestRelease in t.releases
      && t.releases[t.currents[c].latestRelease] == NewRelease(db, c, db.infos[c])
  {
  }

  // The release row of config c is the new head; no earlier row is lost.
  ghost predicate ReleaseEffect(db: Tables, t: Tables, c: nat) {
    && HasHead(db, c) && (db.currents[c].latestRelease != 0 ==> db.currents[c].latestRelease in db.releases)
    && c in t.currents && Visible(t.infos, c) && Released(db, t, c)
    && (forall r :: r in db.releases ==> r in t.releases && t.releases[r] == db.releases[r])
    && t.currents[c].latestRelease in t.releases
    && t.releases[t.currents[c].latestRelease] == NewRelease(db, c, db.infos[c])
  }

  lemma ReleaseIntoEffect(db: Tables, c: nat, w: World)
    requires TablesOk(db) && c in db.currents && c in db.infos && !UpToDate(db, c) && w.abortAt != AtRelease
    requires Released(db, ReleaseInto(db, db, c, db.infos[c], w).0, c)
    ensures ReleaseEffect(db, ReleaseInto(db, db, c, db.infos[c], w).0, c)
  {
    hide TablesOk, ReleaseInto, NewRelease, WithRelease, UpToDate, PutInfo, VersionHeadOk, ReleaseHeadOk, OthersKept,
      ReleaseNamesVersion, Released;
    HeadRowsExist(db, c);
    RunningIds(db);
    ReleaseIntoMeans(db, db, c, w);
    NewReleaseInPlace(db, c);
    ReleaseIntoOthers(db, db, c, w);
    ReleasesKept(db, ReleaseInto(db, db, c, db.infos[c], w).0, c);
  }

  lemma EffectiveRelease(s: Server, c: nat, w: World)
    requires Inv(s) && c in s.db.currents && Visible(s.db.infos, c) && !UpToDate(s.db, c)
    requires Effective(ReleaseConfig(s, c, w).1, w)
    ensures Inv(ReleaseConfig(s, c, w).0) && ReleaseEffect(s.db, ReleaseConfig(s, c, w).0.db, c)
  {
    InvTables(s);
    hide Inv, TablesOk, ReleaseConfig, ReleaseInto, ReleaseEffect, Released, UpToDate;
    ReleaseKeeps(s, c, w);
    ReleaseSucceeds(s, c, w);
    ReleaseIntoEffect(s.db, c, w);
  }

  lemma ReleasesKept(tx: Tables, t: Tables, c: nat)
    requires OthersKept(tx, t, c)
    ensures forall r :: r in tx.releases ==> r in t.releases && t.releases[r] == tx.releases[r]
  {
  }

  lemma InvTables(s: Server)
    requires Inv(s)
    ensures TablesOk(s.db)
  {
  }

  // One rollback with the release that follows it.
  datatype Try = Try(creator: string, rollback: World, release: World)

  function RollbackThenRelease(s: Server, c: nat, t: Try): Server {
    ReleaseConfig(RollbackConfig(s, c, 0, t.creator, t.rollback).0, c, t.release).0
  }

  predicate BothEffective(s: Server, c: nat, t: Try) {
    && Effective(RollbackConfig(s, c, 0, t.creator, t.rollback).1, t.rollback)
    && Effective(ReleaseConfig(RollbackConfig(s, c, 0, t.creator, t.rollback).0, c, t.release).1, t.release)
  }

  // Once the rollback is through, its release cannot be refused: only the
  // environment can fail it.
  lemma ReleaseAfterRollback(s: Server, c: nat, creator: string, w1: World, w2: World)
    requires Inv(s) && Effective(RollbackConfig(s, c, 0, creator, w1).1, w1)
    ensures ReleaseConfig(RollbackConfig(s, c, 0, creator, w1).0, c, w2).1 == Done
       <==> w2.abortAt != AtRelease && w2.abortAt != AtNotify
  {
    hide Inv, RollbackConfig, ReleaseConfig;
    RollbackPrepares(s, c, creator, w1);
    ReleaseSucceeds(RollbackConfig(s, c, 0, creator, w1).0, c, w2);
  }

  // The previous release's content becomes the newest release, the newest
  // release becomes the previous one, and both numbers grow.
  lemma RollbackSwaps(s: Server, c: nat, t: Try)
    requires Inv(s) && BothEffective(s, c, t)
    ensures var s' := RollbackThenRelease(s, c, t);
      Inv(s') && c in s.db.currents && c in s'.db.currents && HasHead(s.db, c) && HasHead(s'.db, c)
    ensures var s' := RollbackThenRelease(s, c, t);
      var (cur, cur') := (s.db.currents[c], s'.db.currents[c]);
      && cur.preRelease in s.db.releases && cur.latestRelease in s.db.releases
      && cur'.preRelease == cur.latestRelease && cur'.latestRelease in s'.db.releases &&
        cur'.preRelease in s'.db.releases
      && s'.db.releases[cur'.preRelease] == s.db.releases[cur.latestRelease]
      && s'.db.releases[cur'.latestRelease].digest == s.db.releases[cur.preRelease].digest
      && s'.db.releases[cur'.latestRelease].version == s.db.releases[cur.latestRelease].version + 1
      && HeadRow(s'.db, c).version == HeadRow(s.db, c).version + 1
      && (forall content :: Serves(s', cur'.latestRelease, content) <==> Serves(s, cur.preRelease, content))
      && (forall content :: Serves(s', cur'.preRelease, content) <==> Serves(s, cur.latestRelease, content))
  {
    hide Inv, TablesOk, RollbackConfig, ReleaseConfig, Serves, UpToDate, VersionHeadOk, ReleaseHeadOk,
      ReleaseNamesVersion;
    var m, s' := RollbackConfig(s, c, 0, t.creator, t.rollback).0, RollbackThenRelease(s, c, t);
    assert TablesOk(s.db) by { InvTables(s); }
    RollbackPrepares(s, c, t.creator, t.rollback);
    HeadRowsExist(s.db, c);
    EffectiveRelease(m, c, t.release);
    PreviousNeedsLatest(s.db, c);
    var (cur, cur') := (s.db.currents[c], s'.db.currents[c]);
    ReleaseServesDigest(s, cur.preRelease);
    ReleaseServesDigest(s, cur.latestRelease);
    ReleaseServesDigest(s', cur'.preRelease);
    ReleaseServesDigest(s', cur'.latestRelease);
  }

  lemma PreviousNeedsLatest(db: Tables, c: nat)
    requires TablesOk(db) && c in db.currents && db.currents[c].preRelease in db.releases
    ensures db.currents[c].latestRelease != 0
  {
    HeadRowsExist(db, c);
    hide InfosOk, VersionKeysOk, VersionsOk, ReleasesOk;
  }

  // Doing it twice restores the released content under fresh numbers.
  lemma RollbackTwiceRestores(s: Server, c: nat, first: Try, second: Try)
    requires Inv(s) && BothEffective(s, c, first) && BothEffective(RollbackThenRelease(s, c, first), c, second)
    ensures var s' := RollbackThenRelease(RollbackThenRelease(s, c, first), c, second);
      && c in s.db.currents && c in s'.db.currents && HasHead(s.db, c) && HasHead(s'.db, c)
      && var (cur, cur') := (s.db.currents[c], s'.db.currents[c]);
      && cur.latestRelease in s.db.releases && cur'.latestRelease in s'.db.releases
      && s'.db.releases[cur'.latestRelease].digest == s.db.releases[cur.latestRelease].digest
      && s'.db.releases[cur'.latestRelease].version == s.db.releases[cur.latestRelease].version + 2
      && HeadRow(s'.db, c).version == HeadRow(s.db, c).version + 2
      && (forall content :: Serves(s', cur'.latestRelease, content) <==> Serves(s, cur.latestRelease, content))
      && (forall content :: Serves(s', cur'.preRelease, content) <==> Serves(s, cur.preRelease, content))
  {
    hide Inv, BothEffective, RollbackThenRelease, Serves;
    RollbackSwaps(s, c, first);
    RollbackSwaps(RollbackThenRelease(s, c, first), c, second);
  }
}
