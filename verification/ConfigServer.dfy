// The config server as an object: tables and files as fields, operations that
// read committed rows, write files as they go, gather row changes in a
// transaction and commit or roll back at the end.
module ConfigServer {
  import M = ConfigModel

  class Manager {
    var infos: map<nat, M.ConfigInfo>
    var versions: map<nat, M.ConfigVersion>
    var currents: map<nat, M.Current>
    var releases: map<nat, M.Release>
    var nextId: nat
    var files: map<string, string>
    var packages: map<(string, string), set<(string, string)>>

    function Rows(): M.Tables reads this { M.Tables(infos, versions, currents, releases, nextId) }

    function State(): M.Server reads this { M.Server(Rows(), files, packages) }

    constructor ()
      ensures State() == M.EMPTY
    {
      infos, versions, currents, releases := map[], map[], map[], map[];
      nextId, files, packages := 1, map[], map[];
    }

    method RollbackTx(tx: M.Tables)
      modifies this`nextId
      ensures Rows() == M.Undo(old(Rows()), tx)
    {
      nextId := tx.nextId;
    }

    method CommitTx(tx: M.Tables, w: M.World)
      modifies this`infos, this`versions, this`currents, this`releases, this`nextId
      ensures Rows() == M.Commit(old(Rows()), tx, w)
    {
      nextId := tx.nextId;
      if w.abortAt != M.AtCommit {
        infos, versions, currents, releases := tx.infos, tx.versions, tx.currents, tx.releases;
      }
    }

    method StoreFile(path: string, content: string, fails: bool, torn: M.Torn) returns (ok: bool)
      modifies this`files
      ensures files == M.WriteFile(old(files), path, content, fails, torn) && ok == !fails
    {
      if !fails || torn == M.Replaced {
        files := files[path := content];
      } else if torn == M.Lost {
        files := files - {path};
      }
      ok := !fails;
    }

    method StoreConfigData(req: M.Request, version: nat, w: M.World)
      returns (ok: bool, digest: string, replaceDigest: string)
      modifies this`files
      ensures M.Stored(files, ok, digest, replaceDigest) == M.StoreData(old(files), req, version, w)
    {
      ok, digest, replaceDigest := false, "", "";
      var data := req.data;
      var replaced := "";
      if M.FromTemplate(req) {
        if w.merged.None? { return; }
        var stored := StoreFile(M.ReplacementPath(req.info, version), req.replaceData, w.abortAt == M.AtReplacement,
          w.torn);
        if !stored { return; }
        replaced := M.DigestOf(req.replaceData);
        data := w.merged.value;
      }
      var stored := StoreFile(M.DataPath(req.info, version), data, w.abortAt == M.AtData, w.torn);
      if !stored { return; }
      ok, digest, replaceDigest := true, M.DigestOf(data), replaced;
    }

    method AddConfig(req: M.Request, w: M.World) returns (out: M.Outcome)
      modifies this
      ensures (State(), out) == M.AddConfig(old(State()), req, w)
    {
      hide M.KeyTaken, M.VersionTaken, M.StoreData, M.MergeInfo, M.MergeCurrent, M.NeedNewVersion, M.UsesTemplate;
      if !M.ValidRequest(req.info) { return M.Failed(M.Invalid); }
      var tx := Rows();
      if w.abortAt == M.AtNamespace || w.abortAt == M.AtInfo {
        RollbackTx(tx);
        return M.Failed(M.External);
      }
      if M.KeyTaken(infos, req.info, 0) {
        RollbackTx(tx);
        return M.Failed(M.Duplicate);
      }
      var c := tx.nextId;
      tx := tx.(infos := tx.infos[c := req.info.(status := M.CREATED)], nextId := c + 1);
      if w.render.None? {
        RollbackTx(tx);
        return M.Failed(M.External);
      }
      var rendered := req.(info := req.info.(status := M.CREATED, tplNs := w.render.value));
      var ok, digest, replaceDigest := StoreConfigData(rendered, 1, w);
      if !ok {
        RollbackTx(tx);
        return M.Failed(M.External);
      }
      var i := rendered.info;
      var row := M.ConfigVersion(c, i.name, i.ns, i.site, 1, i.desc, i.createdBy, digest, 0, "", "", "");
      if i.tplName != "" && i.tplNs != "" {
        if w.template.NoTemplate? {
          RollbackTx(tx);
          return M.Failed(M.Missing);
        }
        row := row.(tplId := w.template.id, tplNs := i.tplNs, tplName := i.tplName, replaceDigest := replaceDigest);
      }
      if w.abortAt == M.AtVersion {
        RollbackTx(tx);
        return M.Failed(M.External);
      }
      var v := tx.nextId;
      tx := tx.(versions := tx.versions[v := row], nextId := v + 1);
      if w.abortAt == M.AtCurrent {
        RollbackTx(tx);
        return M.Failed(M.External);
      }
      tx := tx.(currents := tx.currents[c := M.Current(v, 0, 0)]);
      CommitTx(tx, w);
      return M.Done;
    }

    method UpdateConfig(c: nat, req: M.Request, w: M.World) returns (out: M.Outcome)
      modifies this
      ensures (State(), out) == M.UpdateConfig(old(State()), c, req, w)
    {
      hide M.KeyTaken, M.VersionTaken, M.StoreData, M.MergeInfo, M.MergeCurrent, M.NeedNewVersion, M.UsesTemplate;
      if !M.ValidRequest(req.info) { return M.Failed(M.Invalid); }
      if w.render.None? { return M.Failed(M.External); }
      if c !in currents || currents[c].latestVersion !in versions { return M.Failed(M.Missing); }
      var info, current := req.info, currents[c];
      var was := versions[current.latestVersion];
      var rendered := req.(info := info.(tplNs := w.render.value));
      var tx := Rows();
      var ok, digest, replaceDigest := StoreConfigData(rendered, was.version + 1, w);
      if !ok { return M.Failed(M.External); }
      if M.NeedNewVersion(was, rendered.info, digest, replaceDigest) {
        var i := rendered.info;
        var row := M.ConfigVersion(c, i.name, i.ns, i.site, was.version + 1, i.desc, i.createdBy, digest, 0, "", "",
          "");
        if M.UsesTemplate(i) {
          if w.template.NoTemplate? {
            RollbackTx(tx);
            return M.Failed(M.Missing);
          }
          row := row.(tplId := i.tplId, tplNs := w.template.ns, tplName := w.template.name,
            replaceDigest := replaceDigest);
        }
        if w.abortAt == M.AtVersion {
          RollbackTx(tx);
          return M.Failed(M.External);
        }
        if M.VersionTaken(tx.versions, row) {
          RollbackTx(tx);
          return M.Failed(M.Duplicate);
        }
        current := current.(latestVersion := tx.nextId);
        tx := M.AddVersion(tx, row);
        if info.status != M.CREATED { info := info.(status := M.UPDATED); }
      }
      if w.abortAt == M.AtInfo {
        RollbackTx(tx);
        return M.Failed(M.External);
      }
      if M.KeyTaken(tx.infos, info, c) {
        RollbackTx(tx);
        return M.Failed(M.Duplicate);
      }
      tx := M.PutInfo(tx, c, info);
      if w.abortAt == M.AtCurrent {
        RollbackTx(tx);
        return M.Failed(M.External);
      }
      tx := M.PutCurrent(tx, c, current);
      CommitTx(tx, w);
      return M.Done;
    }

    // releaseConfig: shared by single and namespace releases.
    method ReleaseInto(tx0: M.Tables, c: nat, info: M.ConfigInfo, w: M.World) returns (tx: M.Tables, out: M.Outcome)
      ensures (tx, out) == M.ReleaseInto(Rows(), tx0, c, info, w)
    {
      tx := tx0;
      if c !in currents || currents[c].latestVersion !in versions { return tx, M.Failed(M.Missing); }
      var current := currents[c];
      var oldVersion, oldReleaseId := 0, 0;
      if current.latestRelease != 0 {
        if current.latestRelease !in releases { return tx, M.Failed(M.Missing); }
        if releases[current.latestRelease].versionId == current.latestVersion { return tx, M.Failed(M.NoUpdates); }
        oldVersion, oldReleaseId := releases[current.latestRelease].version, current.latestRelease;
      }
      var row := M.Release(c, oldVersion + 1, current.latestVersion, versions[current.latestVersion].digest, info.desc,
        info.createdBy);
      if w.abortAt == M.AtRelease { return tx, M.Failed(M.External); }
      if M.ReleaseTaken(tx.releases, row) { return tx, M.Failed(M.Duplicate); }
      var r := tx.nextId;
      tx := M.AddRelease(tx, row);
      tx := M.PutCurrent(tx, c, M.Current(current.latestVersion, r, oldReleaseId));
      tx := M.PutInfo(tx, c, info.(status := M.RELEASED));
      out := M.Done;
    }

    method ReleaseConfig(c: nat, w: M.World) returns (out: M.Outcome)
      modifies this
      ensures (State(), out) == M.ReleaseConfig(old(State()), c, w)
    {
      if !M.Visible(infos, c) { return M.Failed(M.Missing); }
      var tx;
      tx, out := ReleaseInto(Rows(), c, infos[c], w);
      if out.Failed? {
        RollbackTx(tx);
        return out;
      }
      if w.abortAt == M.AtNotify {
        RollbackTx(tx);
        return M.Failed(M.External);
      }
      CommitTx(tx, w);
      return M.Done;
    }

    method RollbackConfig(c: nat, versionId: nat, creator: string, w: M.World) returns (out: M.Outcome)
      modifies this
      ensures (State(), out) == M.RollbackConfig(old(State()), c, versionId, creator, w)
    {
      hide M.VersionFile, M.ReplacementFile, M.VersionTaken, M.MergeInfo, M.MergeCurrent, M.WriteFile;
      if versionId != 0 { return M.Failed(M.Unsupported); }
      if !M.Visible(infos, c) || c !in currents { return M.Failed(M.Missing); }
      var info, current := infos[c], currents[c];
      if current.preRelease == 0 { return M.Failed(M.NoRollback); }
      if current.preRelease !in releases || releases[current.preRelease].versionId !in versions {
        return M.Failed(M.Missing);
      }
      var pre := versions[releases[current.preRelease].versionId];
      if M.VersionFile(pre) !in files { return M.Failed(M.Missing); }
      var data, replaceData := files[M.VersionFile(pre)], "";
      if pre.tplId != 0 {
        if w.template.NoTemplate? || M.ReplacementFile(pre) !in files { return M.Failed(M.Missing); }
        replaceData := files[M.ReplacementFile(pre)];
      }
      if current.latestVersion !in versions { return M.Failed(M.Missing); }
      var tx := Rows();
      var row := pre.(version := versions[current.latestVersion].version + 1, createdBy := creator);
      if w.abortAt == M.AtVersion { return M.Failed(M.External); }
      if M.VersionTaken(tx.versions, row) { return M.Failed(M.Duplicate); }
      var v := tx.nextId;
      tx := M.AddVersion(tx, row);
      var stored := StoreFile(M.VersionFile(row), data, w.abortAt == M.AtData, w.torn);
      if !stored {
        RollbackTx(tx);
        return M.Failed(M.External);
      }
      stored := StoreFile(M.ReplacementFile(row), replaceData, w.abortAt == M.AtReplacement, w.torn);
      if !stored || w.abortAt == M.AtCurrent {
        RollbackTx(tx);
        return M.Failed(M.External);
      }
      tx := M.PutCurrent(tx, c, current.(latestVersion := v));
      if w.abortAt == M.AtInfo {
        RollbackTx(tx);
        return M.Failed(M.External);
      }
      tx := M.PutInfo(tx, c, info.(status := M.UPDATED));
      CommitTx(tx, w);
      return M.Done;
    }

    method ReleaseNamespace(site: string, ns: string, ids: seq<nat>, w: M.World) returns (out: M.Outcome)
      requires forall c :: c in ids ==> c in infos
      modifies this
      ensures (State(), out) == M.ReleaseNamespace(old(State()), site, ns, ids, w)
    {
      var tx, paths := Rows(), map[];
      out := M.Done;
      var k := 0;
      while k < |ids| && out == M.Done
        invariant 0 <= k <= |ids| && Rows() == old(Rows()) && files == old(files) && packages == old(packages)
        invariant out == M.Done ==> (tx, paths, out) == M.ReleaseAll(Rows(), ids[..k], w)
        invariant out.Failed? ==> tx == M.ReleaseAll(Rows(), ids, w).0 && out == M.ReleaseAll(Rows(), ids, w).2
      {
        var c := ids[k];
        assert ids[..k+1][..k] == ids[..k];
        ghost var before := tx;
        tx, out := ReleaseInto(tx, c, infos[c], w);
        if out == M.Done {
          var v := versions[currents[c].latestVersion];
          paths := paths[M.VersionFile(v) := v.name];
        } else {
          FailureSticks(Rows(), ids, k + 1, w);
        }
        k := k + 1;
      }
      assert out == M.Done ==> ids[..k] == ids;
      if out.Failed? {
        RollbackTx(tx);
        return out;
      }
      if exists p :: p in paths && p !in files {
        RollbackTx(tx);
        return M.Failed(M.Missing);
      }
      if w.abortAt == M.AtPackage {
        RollbackTx(tx);
        return M.Failed(M.External);
      }
      packages := packages[(site, ns) := M.Pack(files, paths)];
      if w.abortAt == M.AtNotify {
        RollbackTx(tx);
        return M.Failed(M.External);
      }
      CommitTx(tx, w);
      return M.Done;
    }
  }

  // The loop stops at the first config that fails.
  lemma {:induction false} FailureSticks(db: M.Tables, ids: seq<nat>, k: nat, w: M.World)
    requires k <= |ids| && forall c :: c in ids ==> c in db.infos
    requires M.ReleaseAll(db, ids[..k], w).2.Failed?
    ensures M.ReleaseAll(db, ids, w) == M.ReleaseAll(db, ids[..k], w)
    decreases |ids|
  {
    if k < |ids| {
      assert ids[..|ids|-1][..k] == ids[..k];
      FailureSticks(db, ids[..|ids|-1], k, w);
    } else {
      assert ids[..k] == ids;
    }
  }
}
