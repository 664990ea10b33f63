// What the operations of the config server come to, in rows and bytes: stated
// without the functions that compute it, for every state that a run can reach.
module ConfigEffects {
  import opened Wrappers
  import opened ConfigModel
  import opened ConfigProofs
  import opened ConfigSteps
  import opened ConfigRuns
  import opened Folders

  // --- Contents sent ---

  // Properties sent with a template are merged with their replacement values.
  predicate Templated(req: Request) { req.info.format == "property" && req.tplData != "" }

  function Sent(req: Request, w: World): string
    requires Templated(req) ==> w.merged.Some?
  {
    if Templated(req) then w.merged.value else req.data
  }

  function SentReplacement(req: Request): string { if Templated(req) then DigestOf(req.replaceData) else "" }

  lemma StoredIsSent(files: map<string, string>, req: Request, n: nat, w: World)
    requires StoreData(files, req, n, w).ok
    ensures (Templated(req) ==> w.merged.Some?) && StoreData(files, req, n, w).digest == DigestOf(Sent(req, w))
    ensures StoreData(files, req, n, w).replaceDigest == SentReplacement(req)
  {
    hide WriteFile, DataPath, ReplacementPath, DigestOf;
  }

  // Data is stored unless the merge or one of the writes fails.
  lemma StoredIff(files: map<string, string>, req: Request, n: nat, w: World)
    ensures StoreData(files, req, n, w).ok <==>
      w.abortAt != AtData && (Templated(req) ==> w.merged.Some? && w.abortAt != AtReplacement)
  {
    hide WriteFile, DataPath, ReplacementPath, DigestOf;
  }

  // The file behind a version row, if its digest is that of content, holds content.
  lemma DigestIsContent(versions: Versions, files: map<string, string>, v: nat, content: string)
    requires FilesOk(versions, files) && v in versions
    ensures VersionFile(versions[v]) in files
    ensures versions[v].digest == DigestOf(content) <==> files[VersionFile(versions[v])] == content
    ensures versions[v].replaceDigest != "" ==>
      && ReplacementFile(versions[v]) in files
      && (versions[v].replaceDigest == DigestOf(content) <==> files[ReplacementFile(versions[v])] == content)
  {
    StoredRow(versions, files, v);
    var file := files[VersionFile(versions[v])];
    if DigestOf(file) == DigestOf(content) { DigestInjective(file, content); }
    if versions[v].replaceDigest != "" {
      var other := files[ReplacementFile(versions[v])];
      if DigestOf(other) == DigestOf(content) { DigestInjective(other, content); }
    }
    hide VersionFile, ReplacementFile, DigestOf;
  }

  // --- Updates ---

  // The update brings other bytes, another description, another template or
  // other replacement values than the newest version has.
  predicate BringsNews(s: Server, was: ConfigVersion, req: Request, w: World)
    requires VersionFile(was) in s.files && (was.replaceDigest != "" ==> ReplacementFile(was) in s.files)
    requires Templated(req) ==> w.merged.Some?
  {
    || s.files[VersionFile(was)] != Sent(req, w)
    || was.desc != req.info.desc
    || was.tplId != req.info.tplId
    || (if Templated(req) then was.replaceDigest == "" || s.files[ReplacementFile(was)] != req.replaceData
        else was.replaceDigest != "")
  }

  // The next version of config c, for the request.
  predicate IsNextRow(row: ConfigVersion, was: ConfigVersion, c: nat, req: Request, w: World)
    requires w.render.Some? && (Templated(req) ==> w.merged.Some?)
  {
    && row.configId == c && row.version == was.version + 1
    && row.name == req.info.name && row.ns == req.info.ns && row.site == req.info.site
    && row.desc == req.info.desc && row.createdBy == req.info.createdBy && row.digest == DigestOf(Sent(req, w))
    && if req.info.format == "property" && req.info.tplId != 0 && req.info.tplName != "" && w.render.value != "" then
         && w.template.Template? && row.tplId == req.info.tplId && row.tplName == w.template.name
         && row.tplNs == w.template.ns && row.replaceDigest == SentReplacement(req)
       else row.tplId == 0 && row.tplName == "" && row.tplNs == "" && row.replaceDigest == ""
  }

  // Blank fields of the request leave the stored ones alone.
  predicate IsMerged(now: ConfigInfo, was: ConfigInfo, sent: ConfigInfo, status: string) {
    && now.name == was.name && now.ns == was.ns && now.site == was.site
    && now.desc == (if sent.desc == "" then was.desc else sent.desc)
    && now.createdBy == (if sent.createdBy == "" then was.createdBy else sent.createdBy)
    && now.format == (if sent.format == "" then was.format else sent.format)
    && now.tplId == (if sent.tplId == 0 then was.tplId else sent.tplId)
    && now.tplName == (if sent.tplName == "" then was.tplName else sent.tplName)
    && now.tplNs == (if sent.tplNs == "" then was.tplNs else sent.tplNs)
    && now.status == status
  }

  function UpdatedStatus(was: string, sent: string, news: bool): string {
    if news then (if sent == "created" then "created" else "updated") else if sent == "" then was else sent
  }

  // What an update that takes effect does to the rows, given whether it brings
  // anything new.
  ghost predicate UpdatesRows(db: Tables, t: Tables, c: nat, req: Request, w: World, news: bool)
    requires w.render.Some? && (Templated(req) ==> w.merged.Some?)
    requires c in db.infos && c in db.currents && db.currents[c].latestVersion in db.versions
  {
    var was := db.versions[db.currents[c].latestVersion];
    && t.releases == db.releases && c in t.infos && t.infos == db.infos[c := t.infos[c]]
    && IsMerged(t.infos[c], db.infos[c], req.info, UpdatedStatus(db.infos[c].status, req.info.status, news))
    && if news then
         && db.nextId !in db.versions && db.nextId in t.versions
         && t.versions == db.versions[db.nextId := t.versions[db.nextId]]
         && IsNextRow(t.versions[db.nextId], was, c, req, w)
         && t.currents == db.currents[c := db.currents[c].(latestVersion := db.nextId)]
       else t.versions == db.versions && t.currents == db.currents
  }

  lemma UpdateHeadsRows(db: Tables, tx: Tables, c: nat, info: ConfigInfo, cur: Current, w: World)
    requires c in tx.infos && c in tx.currents && w.abortAt != AtCommit
    requires UpdateHeads(db, tx, c, info, cur, w).1 == Done
    requires cur.latestVersion != 0 && cur.latestRelease == tx.currents[c].latestRelease
    requires cur.preRelease == tx.currents[c].preRelease
    ensures UpdateHeads(db, tx, c, info, cur, w).0 ==
      tx.(infos := tx.infos[c := MergeInfo(tx.infos[c], info)], currents := tx.currents[c := cur])
  {
    hide KeyTaken, MergeInfo;
  }

  lemma MergedMeans(was: ConfigInfo, sent: ConfigInfo)
    requires SameKey(was, sent)
    ensures IsMerged(MergeInfo(was, sent), was, sent, if sent.status == "" then was.status else sent.status)
  {
  }

  predicate NeedsRow(was: ConfigVersion, req: Request, w: World)
    requires Templated(req) ==> w.merged.Some?
  {
    || was.digest != DigestOf(Sent(req, w)) || was.desc != req.info.desc || was.tplId != req.info.tplId
    || was.replaceDigest != SentReplacement(req)
  }

  lemma UpdatedRows(db: Tables, c: nat, req: Request, rendered: ConfigInfo, st: Stored, w: World)
    requires w.render.Some? && (Templated(req) ==> w.merged.Some?) && rendered == req.info.(tplNs := w.render.value)
    requires st.digest == DigestOf(Sent(req, w)) && st.replaceDigest == SentReplacement(req)
    requires c in db.infos && c in db.currents && db.currents[c].latestVersion in db.versions
    requires db.nextId != 0 && db.nextId !in db.versions && db.currents[c].latestVersion != 0
    requires SameKey(db.infos[c], req.info)
    requires var was := db.versions[db.currents[c].latestVersion]; was.name == req.info.name && was.ns == req.info.ns
    requires UpdateRows(db, c, req.info, rendered, st, w).1 == Done && w.abortAt != AtCommit
    ensures UpdatesRows(db, UpdateRows(db, c, req.info, rendered, st, w).0, c, req, w,
      NeedsRow(db.versions[db.currents[c].latestVersion], req, w))
  {
    hide UpdateHeads, VersionTaken, MergeInfo, DigestOf, Sent, SentReplacement;
    var (cur, was) := (db.currents[c], db.versions[db.currents[c].latestVersion]);
    if NeedsRow(was, req, w) {
      var row := NextVersion(c, was, rendered, st, w);
      var info := if req.info.status != CREATED then req.info.(status := UPDATED) else req.info;
      UpdateHeadsRows(db, AddVersion(db, row), c, info, cur.(latestVersion := db.nextId), w);
      MergedMeans(db.infos[c], info);
    } else {
      assert db.currents[c := cur] == db.currents;
      UpdateHeadsRows(db, db, c, req.info, cur, w);
      MergedMeans(db.infos[c], req.info);
    }
  }

  lemma NewsIsNeed(s: Server, c: nat, req: Request, w: World)
    requires FilesOk(s.db.versions, s.files) && (Templated(req) ==> w.merged.Some?)
    requires c in s.db.currents && s.db.currents[c].latestVersion in s.db.versions
    ensures var was := s.db.versions[s.db.currents[c].latestVersion];
      && VersionFile(was) in s.files && (was.replaceDigest != "" ==> ReplacementFile(was) in s.files)
      && (BringsNews(s, was, req, w) <==> NeedsRow(was, req, w))
  {
    var v := s.db.currents[c].latestVersion;
    DigestIsContent(s.db.versions, s.files, v, Sent(req, w));
    DigestIsContent(s.db.versions, s.files, v, req.replaceData);
    assert DigestOf(req.replaceData) != "";
    hide VersionFile, ReplacementFile, DigestOf, FilesOk, Sent;
  }

  lemma UpdateUnfolds(s: Server, c: nat, req: Request, w: World)
    requires c in s.db.currents && s.db.currents[c].latestVersion in s.db.versions
    requires UpdateConfig(s, c, req, w).1 == Done
    ensures w.render.Some?
    ensures var rendered := req.(info := req.info.(tplNs := w.render.value));
      var st := StoreData(s.files, rendered, s.db.versions[s.db.currents[c].latestVersion].version + 1, w);
      && st.ok && UpdateRows(s.db, c, req.info, rendered.info, st, w).1 == Done
      && UpdateConfig(s, c, req, w).0.db == UpdateRows(s.db, c, req.info, rendered.info, st, w).0
      && UpdateConfig(s, c, req, w).0.packages == s.packages
  {
    hide UpdateRows, StoreData;
  }

  // The rows of config c and its newest version are there and go together.
  lemma HeadOfConfig(db: Tables, c: nat)
    requires TablesOk(db) && c in db.infos
    ensures c in db.currents && db.currents[c].latestVersion in db.versions && db.currents[c].latestVersion != 0
    ensures OfConfig(db.versions[db.currents[c].latestVersion], db.infos[c])
    ensures db.versions[db.currents[c].latestVersion].configId == c
    ensures db.nextId != 0 && db.nextId !in db.versions && db.nextId !in db.infos && db.nextId + 1 !in db.versions
  {
    HeadRowsExist(db, c);
    hide InfosOk, VersionsOk, ReleasesOk, ReleaseHeadOk;
  }

  // An update that takes effect adds the next version exactly if the bytes, the
  // description, the template or the replacement values differ from those of the
  // newest version; otherwise no version is added.
  lemma UpdateMeans(s: Server, c: nat, req: Request, w: World)
    requires Inv(s) && c in s.db.infos && SameKey(s.db.infos[c], req.info)
    requires Effective(UpdateConfig(s, c, req, w).1, w)
    ensures w.render.Some? && (Templated(req) ==> w.merged.Some?)
    ensures c in s.db.currents && s.db.currents[c].latestVersion in s.db.versions
    ensures var was := s.db.versions[s.db.currents[c].latestVersion];
      && VersionFile(was) in s.files && (was.replaceDigest != "" ==> ReplacementFile(was) in s.files)
      && UpdatesRows(s.db, UpdateConfig(s, c, req, w).0.db, c, req, w, BringsNews(s, was, req, w))
  {
    InvTables(s);
    assert FilesOk(s.db.versions, s.files);
    hide Inv, TablesOk, FilesOk, UpdateConfig, StoreData, UpdateRows, UpdatesRows, BringsNews, NeedsRow, DigestOf, Sent,
      SentReplacement;
    HeadOfConfig(s.db, c);
    UpdateUnfolds(s, c, req, w);
    var rendered := req.(info := req.info.(tplNs := w.render.value));
    var n := s.db.versions[s.db.currents[c].latestVersion].version + 1;
    StoredIsSent(s.files, rendered, n, w);
    SameSent(req, rendered, w);
    UpdatedRows(s.db, c, req, rendered.info, StoreData(s.files, rendered, n, w), w);
    NewsIsNeed(s, c, req, w);
  }

  lemma SameSent(req: Request, rendered: Request, w: World)
    requires rendered == req.(info := rendered.info) && rendered.info.format == req.info.format
    ensures Templated(req) <==> Templated(rendered)
    ensures Templated(req) ==> w.merged.Some? ==> Sent(req, w) == Sent(rendered, w)
    ensures !Templated(req) ==> Sent(req, w) == Sent(rendered, w)
    ensures SentReplacement(req) == SentReplacement(rendered)
  {
    hide DigestOf;
  }

  // Whether a version was added or not, the newest version's file then holds
  // exactly the bytes sent.
  lemma UpdateStoresBytes(s: Server, c: nat, req: Request, w: World)
    requires Inv(s) && c in s.db.infos && SameKey(s.db.infos[c], req.info)
    requires Effective(UpdateConfig(s, c, req, w).1, w)
    ensures Templated(req) ==> w.merged.Some?
    ensures var s' := UpdateConfig(s, c, req, w).0;
      && Inv(s') && c in s'.db.currents && s'.db.currents[c].latestVersion in s'.db.versions
      && var head := s'.db.versions[s'.db.currents[c].latestVersion];
      VersionFile(head) in s'.files && s'.files[VersionFile(head)] == Sent(req, w)
  {
    UpdateMeans(s, c, req, w);
    UpdateKeeps(s, c, req, w);
    var s' := UpdateConfig(s, c, req, w).0;
    HeadDigest(s, s'.db, c, req, w);
    assert FilesOk(s'.db.versions, s'.files);
    hide Inv, FilesOk, UpdatesRows, BringsNews, DigestOf, Sent, VersionFile, UpdateConfig;
    DigestIsContent(s'.db.versions, s'.files, s'.db.currents[c].latestVersion, Sent(req, w));
  }

  lemma HeadDigest(s: Server, t: Tables, c: nat, req: Request, w: World)
    requires FilesOk(s.db.versions, s.files) && w.render.Some? && (Templated(req) ==> w.merged.Some?)
    requires c in s.db.infos && c in s.db.currents && s.db.currents[c].latestVersion in s.db.versions
    requires var was := s.db.versions[s.db.currents[c].latestVersion];
      && VersionFile(was) in s.files && (was.replaceDigest != "" ==> ReplacementFile(was) in s.files)
      && UpdatesRows(s.db, t, c, req, w, BringsNews(s, was, req, w))
    ensures c in t.currents && t.currents[c].latestVersion in t.versions
    ensures t.versions[t.currents[c].latestVersion].digest == DigestOf(Sent(req, w))
  {
    DigestIsContent(s.db.versions, s.files, s.db.currents[c].latestVersion, Sent(req, w));
    hide FilesOk, VersionFile, ReplacementFile, DigestOf, Sent, IsMerged;
  }

  // An update of a config that is there and keeps its key succeeds exactly if
  // the request is complete, the environment does not fail it and, for a new
  // templated version, the template is there.
  lemma UpdateSucceedsIff(s: Server, c: nat, req: Request, w: World)
    requires Inv(s) && c in s.db.infos && SameKey(s.db.infos[c], req.info)
    ensures c in s.db.currents && s.db.currents[c].latestVersion in s.db.versions
    ensures var was := s.db.versions[s.db.currents[c].latestVersion];
      VersionFile(was) in s.files && (was.replaceDigest != "" ==> ReplacementFile(was) in s.files)
    ensures var was := s.db.versions[s.db.currents[c].latestVersion];
      && (UpdateConfig(s, c, req, w).1 == Done <==>
            && req.info.name != "" && req.info.ns != "" && req.info.site != "" && req.info.createdBy != ""
            && req.info.format != "" && w.render.Some? && w.abortAt !in {AtData, AtInfo, AtCurrent}
            && (Templated(req) ==> w.merged.Some? && w.abortAt != AtReplacement)
            && (BringsNews(s, was, req, w) ==>
              w.abortAt != AtVersion && (NamesTemplate(req, w) ==> w.template.Template?)))
  {
    hide *;
    InvTables(s);
    InvFilesOk(s);
    HeadOfConfig(s.db, c);
    NewestFileThere(s, c);
    if w.render.Some? {
      var rendered := req.(info := req.info.(tplNs := w.render.value));
      var n := s.db.versions[s.db.currents[c].latestVersion].version + 1;
      var st := StoreData(s.files, rendered, n, w);
      SameSent(req, rendered, w);
      StoredIff(s.files, rendered, n, w);
      KeyIsOwn(s.db, c, req.info);
      if st.ok {
        StoredIsSent(s.files, rendered, n, w);
        NewsIsNeed(s, c, req, w);
        OwnNames(s.db, c, req.info);
        NextRowIsFree(s.db, c, rendered.info, st, w) by { SameKeyRendered(s.db.infos[c], req.info, w.render.value); }
        UpdateRowsDoneIff(s.db, c, req, rendered.info, st, w);
      }
    }
    UpdateDoneIff(s, c, req, w);
  }

  lemma InvFilesOk(s: Server)
    requires Inv(s)
    ensures FilesOk(s.db.versions, s.files)
  {
  }

  lemma SameKeyRendered(a: ConfigInfo, b: ConfigInfo, tplNs: string)
    requires SameKey(a, b)
    ensures SameKey(a, b.(tplNs := tplNs))
  {
  }

  lemma OwnNames(db: Tables, c: nat, info: ConfigInfo)
    requires TablesOk(db) && c in db.infos && SameKey(db.infos[c], info)
    ensures c in db.currents && db.currents[c].latestVersion in db.versions
    ensures var was := db.versions[db.currents[c].latestVersion]; was.name == info.name && was.ns == info.ns
  {
    HeadOfConfig(db, c);
    hide TablesOk;
  }

  lemma UpdateDoneIff(s: Server, c: nat, req: Request, w: World)
    requires c in s.db.currents && s.db.currents[c].latestVersion in s.db.versions
    ensures UpdateConfig(s, c, req, w).1 == Done <==>
      && req.info.name != "" && req.info.ns != "" && req.info.site != "" && req.info.createdBy != ""
      && req.info.format != "" && w.render.Some?
      && var rendered := req.(info := req.info.(tplNs := w.render.value));
      var st := StoreData(s.files, rendered, s.db.versions[s.db.currents[c].latestVersion].version + 1, w);
      st.ok && UpdateRows(s.db, c, req.info, rendered.info, st, w).1 == Done
  {
    hide StoreData, UpdateRows;
  }

  predicate NamesTemplate(req: Request, w: World)
    requires w.render.Some?
  {
    req.info.format == "property" && req.info.tplId != 0 && req.info.tplName != "" && w.render.value != ""
  }

  lemma UpdateRowsDoneIff(db: Tables, c: nat, req: Request, rendered: ConfigInfo, st: Stored, w: World)
    requires w.render.Some? && (Templated(req) ==> w.merged.Some?) && rendered == req.info.(tplNs := w.render.value)
    requires st.digest == DigestOf(Sent(req, w)) && st.replaceDigest == SentReplacement(req)
    requires c in db.currents && db.currents[c].latestVersion in db.versions
    requires var was := db.versions[db.currents[c].latestVersion];
      && was.name == req.info.name && was.ns == req.info.ns
      && !VersionTaken(db.versions, NextVersion(c, was, rendered, st, w))
    requires !KeyTaken(db.infos, req.info, c) && !KeyTaken(db.infos, req.info.(status := UPDATED), c)
    ensures UpdateRows(db, c, req.info, rendered, st, w).1 == Done <==>
      && w.abortAt !in {AtInfo, AtCurrent}
      && (NeedsRow(db.versions[db.currents[c].latestVersion], req, w) ==>
            w.abortAt != AtVersion && (NamesTemplate(req, w) ==> w.template.Template?))
  {
    hide KeyTaken, VersionTaken, DigestOf, Sent, SentReplacement, NextVersion, PutInfo, PutCurrent, Commit, Undo;
  }

  lemma NewestFileThere(s: Server, c: nat)
    requires FilesOk(s.db.versions, s.files) && c in s.db.currents && s.db.currents[c].latestVersion in s.db.versions
    ensures var was := s.db.versions[s.db.currents[c].latestVersion];
      VersionFile(was) in s.files && (was.replaceDigest != "" ==> ReplacementFile(was) in s.files)
  {
    DigestIsContent(s.db.versions, s.files, s.db.currents[c].latestVersion, "");
    hide FilesOk, VersionFile, ReplacementFile, DigestOf;
  }

  // No other config has the key.
  lemma KeyIsOwn(db: Tables, c: nat, info: ConfigInfo)
    requires TablesOk(db) && c in db.infos && SameKey(db.infos[c], info)
    ensures !KeyTaken(db.infos, info, c) && !KeyTaken(db.infos, info.(status := UPDATED), c)
  {
    hide IdsOk, VersionKeysOk, VersionsOk, ReleasesOk, CurrentsOk, TwoFolders, Apart;
    forall d | d in db.infos && d != c ensures !SameKey(db.infos[d], info) {
      assert Apart(KeyOf(db.infos[d]), KeyOf(db.infos[c]));
      NotApartFromItself(KeyOf(db.infos[c]));
    }
  }

  lemma NotApartFromItself(k: Key)
    ensures !Apart(k, k)
  {
    hide FolderOf;
  }

  lemma NextRowIsFree(db: Tables, c: nat, i: ConfigInfo, st: Stored, w: World)
    requires TablesOk(db) && c in db.infos && SameKey(db.infos[c], i)
    ensures c in db.currents && db.currents[c].latestVersion in db.versions
    ensures !VersionTaken(db.versions, NextVersion(c, db.versions[db.currents[c].latestVersion], i, st, w))
  {
    HeadOfConfig(db, c);
    var row := NextVersion(c, db.versions[db.currents[c].latestVersion], i, st, w);
    hide InfosOk, VersionKeysOk, ReleasesOk, ReleaseHeadOk, IdsOk;
    forall v | v in db.versions && db.versions[v].configId == c ensures db.versions[v].version < row.version {
      assert VersionHeadOk(db.versions, db.currents[c], c);
      NewestVersion(db.versions, db.currents[c], c, v);
    }
  }

  // --- Adds ---

  // The first version of config c, for the request.
  predicate IsFirstRow(row: ConfigVersion, c: nat, req: Request, w: World)
    requires w.render.Some? && (Templated(req) ==> w.merged.Some?)
  {
    && row.configId == c && row.version == 1
    && row.name == req.info.name && row.ns == req.info.ns && row.site == req.info.site
    && row.desc == req.info.desc && row.createdBy == req.info.createdBy && row.digest == DigestOf(Sent(req, w))
    && if req.info.tplName != "" && w.render.value != "" then
         && w.template.Template? && row.tplId == w.template.id && row.tplName == req.info.tplName
         && row.tplNs == w.render.value && row.replaceDigest == SentReplacement(req)
       else row.tplId == 0 && row.tplName == "" && row.tplNs == "" && row.replaceDigest == ""
  }

  // One config with its first version, and nothing else.
  ghost predicate AddsRows(db: Tables, t: Tables, c: nat, v: nat, req: Request, w: World)
    requires w.render.Some? && (Templated(req) ==> w.merged.Some?)
  {
    && c !in db.infos && v !in db.versions && v != 0 && t.releases == db.releases
    && t.infos == db.infos[c := req.info.(status := "created")]
    && v in t.versions && t.versions == db.versions[v := t.versions[v]] && IsFirstRow(t.versions[v], c, req, w)
    && t.currents == db.currents[c := Current(v, 0, 0)]
  }

  lemma AddMeans(s: Server, req: Request, w: World) returns (c: nat, v: nat)
    requires TablesOk(s.db) && Effective(AddConfig(s, req, w).1, w)
    ensures w.render.Some? && (Templated(req) ==> w.merged.Some?)
    ensures AddsRows(s.db, AddConfig(s, req, w).0.db, c, v, req, w) && AddConfig(s, req, w).0.packages == s.packages
  {
    c, v := s.db.nextId, s.db.nextId + 1;
    FreshRows(s.db);
    hide TablesOk, StoreData, KeyTaken, DigestOf, Sent, SentReplacement, FirstVersion, AddsRows, IsFirstRow;
    AddUnfolds(s, req, w);
    var rendered := req.(info := req.info.(status := CREATED, tplNs := w.render.value));
    StoredIsSent(s.files, rendered, 1, w);
    SameSent(req, rendered, w);
    FirstRowIs(c, req, StoreData(s.files, rendered, 1, w), w);
    AddedRows(s.db, FirstVersion(c, rendered.info, StoreData(s.files, rendered, 1, w), w), req, w);
  }

  lemma AddUnfolds(s: Server, req: Request, w: World)
    requires Effective(AddConfig(s, req, w).1, w)
    ensures w.render.Some?
    ensures var rendered := req.(info := req.info.(status := CREATED, tplNs := w.render.value));
      var st := StoreData(s.files, rendered, 1, w);
      && st.ok && (req.info.tplName != "" && w.render.value != "" ==> w.template.Template?)
      && AddConfig(s, req, w).0.db ==
           WithConfig(s.db, req.info.(status := CREATED), FirstVersion(s.db.nextId, rendered.info, st, w))
      && AddConfig(s, req, w).0.packages == s.packages
  {
    hide StoreData, KeyTaken, FirstVersion;
  }

  lemma FirstRowIs(c: nat, req: Request, st: Stored, w: World)
    requires w.render.Some? && (Templated(req) ==> w.merged.Some?)
    requires st.digest == DigestOf(Sent(req, w)) && st.replaceDigest == SentReplacement(req)
    requires req.info.tplName != "" && w.render.value != "" ==> w.template.Template?
    ensures IsFirstRow(FirstVersion(c, req.info.(status := CREATED, tplNs := w.render.value), st, w), c, req, w)
  {
    hide DigestOf, Sent, SentReplacement;
  }

  lemma AddedRows(db: Tables, row: ConfigVersion, req: Request, w: World)
    requires w.render.Some? && (Templated(req) ==> w.merged.Some?) && IsFirstRow(row, db.nextId, req, w)
    requires db.nextId !in db.infos && db.nextId + 1 !in db.versions
    ensures AddsRows(db, WithConfig(db, req.info.(status := CREATED), row), db.nextId, db.nextId + 1, req, w)
  {
    hide IsFirstRow;
  }

  lemma FreshRows(db: Tables)
    requires TablesOk(db)
    ensures db.nextId !in db.infos && db.nextId !in db.currents && db.nextId != 0 && db.nextId + 1 !in db.versions
  {
  }

  // Its version's file then holds exactly the bytes sent, unless another config's
  // files are in the way.
  lemma AddStoresBytes(s: Server, req: Request, w: World) returns (c: nat, v: nat)
    requires Inv(s) && FitsIn(s.db.infos, req.info) && Effective(AddConfig(s, req, w).1, w)
    ensures Templated(req) ==> w.merged.Some?
    ensures var s' := AddConfig(s, req, w).0;
      && v in s'.db.versions && s'.db.versions[v].configId == c && c !in s.db.infos
      && VersionFile(s'.db.versions[v]) in s'.files && s'.files[VersionFile(s'.db.versions[v])] == Sent(req, w)
  {
    InvTables(s);
    c, v := AddMeans(s, req, w);
    AddKeeps(s, req, w);
    var s' := AddConfig(s, req, w).0;
    assert FilesOk(s'.db.versions, s'.files);
    hide Inv, TablesOk, FilesOk, AddConfig, DigestOf, Sent, VersionFile;
    DigestIsContent(s'.db.versions, s'.files, v, Sent(req, w));
  }

  // An add succeeds exactly if the request is complete, the key is free, the
  // environment does not fail it and a template that it names is there.
  lemma AddSucceedsIff(s: Server, req: Request, w: World)
    requires TablesOk(s.db)
    ensures AddConfig(s, req, w).1 == Done <==>
      && req.info.name != "" && req.info.ns != "" && req.info.site != "" && req.info.createdBy != ""
      && req.info.format != "" && (forall c :: c in s.db.infos ==> !SameKey(s.db.infos[c], req.info))
      && w.render.Some? && w.abortAt !in {AtNamespace, AtInfo, AtData, AtVersion, AtCurrent}
      && (Templated(req) ==> w.merged.Some? && w.abortAt != AtReplacement)
      && (req.info.tplName != "" && w.render.value != "" ==> w.template.Template?)
  {
    IdsStartAtOne(s.db);
    if w.render.Some? {
      var rendered := req.(info := req.info.(status := CREATED, tplNs := w.render.value));
      StoredIff(s.files, rendered, 1, w);
      SameSent(req, rendered, w);
    }
    hide TablesOk, StoreData, FirstVersion, AddVersion, Undo, Commit, DigestOf, SentReplacement;
  }

  // --- Releases ---

  // The newest version of config c has been released under the next number, and
  // nothing else has changed.
  ghost predicate ReleasesRows(db: Tables, t: Tables, c: nat)
    requires c in db.infos && c in db.currents && db.currents[c].latestVersion in db.versions
  {
    var (cur, r) := (db.currents[c], db.nextId);
    && t.versions == db.versions && t.infos == db.infos[c := db.infos[c].(status := "released")]
    && r !in db.releases && r in t.releases && t.releases == db.releases[r := t.releases[r]]
    && t.releases[r].configId == c && t.releases[r].versionId == cur.latestVersion
    && t.releases[r].digest == db.versions[cur.latestVersion].digest
    && t.releases[r].desc == db.infos[c].desc && t.releases[r].createdBy == db.infos[c].createdBy
    && (if cur.latestRelease == 0 then t.releases[r].version == 1
        else cur.latestRelease in db.releases && t.releases[r].version == db.releases[cur.latestRelease].version + 1)
    && t.currents == db.currents[c := Current(cur.latestVersion, r, cur.latestRelease)]
  }

  lemma ReleaseMeans(s: Server, c: nat, w: World)
    requires Inv(s) && Effective(ReleaseConfig(s, c, w).1, w)
    ensures c in s.db.infos && c in s.db.currents && s.db.currents[c].latestVersion in s.db.versions
    ensures var s' := ReleaseConfig(s, c, w).0;
      ReleasesRows(s.db, s'.db, c) && s'.files == s.files && s'.packages == s.packages
  {
    hide *;
    InvTables(s);
    ReleaseUnfolds(s, c, w);
    HeadOfConfig(s.db, c);
    FreshRelease(s.db, c);
    ReleasedRows(s.db, c, w);
  }

  lemma ReleaseUnfolds(s: Server, c: nat, w: World)
    requires Effective(ReleaseConfig(s, c, w).1, w)
    ensures c in s.db.infos && var r := ReleaseInto(s.db, s.db, c, s.db.infos[c], w);
      r.1 == Done && ReleaseConfig(s, c, w).0 == s.(db := r.0)
  {
    hide ReleaseInto;
  }

  lemma ReleasedRows(db: Tables, c: nat, w: World)
    requires c in db.infos && c in db.currents && db.currents[c].latestVersion in db.versions
    requires db.nextId !in db.releases && db.nextId != 0 && db.currents[c].latestVersion != 0
    requires db.currents[c].latestRelease == 0 ==> db.currents[c].preRelease == 0
    requires ReleaseInto(db, db, c, db.infos[c], w).1 == Done
    ensures ReleasesRows(db, ReleaseInto(db, db, c, db.infos[c], w).0, c)
  {
    MergeStatus(db.infos[c], RELEASED);
    hide ReleaseTaken, MergeInfo;
  }

  lemma FreshRelease(db: Tables, c: nat)
    requires TablesOk(db) && c in db.currents
    ensures db.nextId !in db.releases && db.nextId != 0 && db.currents[c].latestVersion != 0
    ensures db.currents[c].latestRelease == 0 ==> db.currents[c].preRelease == 0
  {
    HeadRowsExist(db, c);
    hide InfosOk, VersionKeysOk, VersionsOk, ReleasesOk;
  }

  // A release succeeds exactly if the config is not deleted, has a version that
  // was not released last and the environment does not fail it.
  lemma ReleaseSucceedsIff(s: Server, c: nat, w: World)
    requires Inv(s) && c in s.db.infos
    ensures c in s.db.currents
    ensures ReleaseConfig(s, c, w).1 == Done <==>
      && s.db.infos[c].status != "deleted" && w.abortAt !in {AtRelease, AtNotify}
      && (s.db.currents[c].latestRelease == 0 ||
          (s.db.currents[c].latestRelease in s.db.releases &&
           s.db.releases[s.db.currents[c].latestRelease].versionId != s.db.currents[c].latestVersion))
  {
    hide *;
    InvTables(s);
    HeadOfConfig(s.db, c);
    ReleaseHeadThere(s.db, c);
    ReleaseIntoKeeps(s.db, s.db, c, w);
    ReleaseDoneIff(s, c, w);
  }

  lemma ReleaseDoneIff(s: Server, c: nat, w: World)
    requires c in s.db.infos && c in s.db.currents
    requires s.db.currents[c].latestRelease != 0 ==> s.db.currents[c].latestRelease in s.db.releases
    requires var r := ReleaseInto(s.db, s.db, c, s.db.infos[c], w); r.1 == Done <==>
      !UpToDate(s.db, c) && w.abortAt != AtRelease
    ensures ReleaseConfig(s, c, w).1 == Done <==>
      && s.db.infos[c].status != "deleted" && w.abortAt !in {AtRelease, AtNotify}
      && (s.db.currents[c].latestRelease == 0 ||
          (s.db.currents[c].latestRelease in s.db.releases &&
           s.db.releases[s.db.currents[c].latestRelease].versionId != s.db.currents[c].latestVersion))
  {
    hide ReleaseInto;
  }

  lemma ReleaseHeadThere(db: Tables, c: nat)
    requires TablesOk(db) && c in db.currents
    ensures db.currents[c].latestRelease != 0 ==> db.currents[c].latestRelease in db.releases
    ensures c in db.infos && SameConfig(db, db, c)
  {
    HeadRowsExist(db, c);
    hide InfosOk, VersionKeysOk, VersionsOk, ReleasesOk;
  }

  // --- Rollbacks ---

  // The version behind the previous release has been copied to the next number,
  // and nothing else has changed.
  ghost predicate RollsBackRows(db: Tables, t: Tables, c: nat, creator: string)
    requires c in db.infos && c in db.currents && db.currents[c].latestVersion in db.versions
    requires db.currents[c].preRelease in db.releases
    requires db.releases[db.currents[c].preRelease].versionId in db.versions
  {
    var (cur, v) := (db.currents[c], db.nextId);
    var pre := db.versions[db.releases[cur.preRelease].versionId];
    && t.releases == db.releases && t.infos == db.infos[c := db.infos[c].(status := "updated")]
    && v !in db.versions && v in t.versions && t.versions == db.versions[v := t.versions[v]]
    && t.currents == db.currents[c := Current(v, cur.latestRelease, cur.preRelease)]
    && t.versions[v].version == db.versions[cur.latestVersion].version + 1
    && t.versions[v].configId == c && t.versions[v].createdBy == creator
    && t.versions[v].name == pre.name && t.versions[v].ns == pre.ns && t.versions[v].site == pre.site
    && t.versions[v].desc == pre.desc && t.versions[v].digest == pre.digest
    && t.versions[v].tplId == pre.tplId && t.versions[v].tplName == pre.tplName && t.versions[v].tplNs == pre.tplNs
    && t.versions[v].replaceDigest == pre.replaceDigest
  }

  lemma RollbackRowsMean(s: Server, c: nat, creator: string, w: World)
    requires Inv(s) && Effective(RollbackConfig(s, c, 0, creator, w).1, w)
    ensures c in s.db.infos && c in s.db.currents && s.db.currents[c].latestVersion in s.db.versions
    ensures s.db.currents[c].preRelease in s.db.releases
    ensures s.db.releases[s.db.currents[c].preRelease].versionId in s.db.versions
    ensures RollsBackRows(s.db, RollbackConfig(s, c, 0, creator, w).0.db, c, creator)
  {
    hide *;
    InvTables(s);
    EffectiveIs(RollbackConfig(s, c, 0, creator, w).1, w);
    ConfigRuns.RollbackMeans(s, c, 0, creator, w);
    RollbackRow(s, c, creator, w);
    RollbackNeedsPrevious(s, c, creator, w);
    RollbackSource(s.db, c);
    HeadOfConfig(s.db, c);
    RolledBackRows(s.db, RollbackConfig(s, c, 0, creator, w).0.db, c, creator);
  }

  lemma EffectiveIs(out: Outcome, w: World)
    ensures Effective(out, w) <==> out == Done && w.abortAt != AtCommit
  {
  }

  lemma RolledBackRows(db: Tables, t: Tables, c: nat, creator: string)
    requires c in db.infos && c in db.currents && db.currents[c].latestVersion in db.versions
    requires db.currents[c].preRelease in db.releases && db.nextId !in db.versions
    requires db.releases[db.currents[c].preRelease].versionId in db.versions
    requires db.versions[db.releases[db.currents[c].preRelease].versionId].configId == c
    requires t.releases == db.releases && t.infos == db.infos[c := db.infos[c].(status := UPDATED)]
    requires t.currents == db.currents[c := db.currents[c].(latestVersion := db.nextId)]
    requires t.versions == db.versions[db.nextId :=
      RollbackVersion(db.versions[db.releases[db.currents[c].preRelease].versionId],
        db.versions[db.currents[c].latestVersion], creator)]
    ensures RollsBackRows(db, t, c, creator)
  {
  }

  lemma RollbackNeedsPrevious(s: Server, c: nat, creator: string, w: World)
    requires RollbackConfig(s, c, 0, creator, w).1 == Done
    ensures c in s.db.infos && c in s.db.currents && s.db.currents[c].preRelease != 0
  {
    hide VersionFile, ReplacementFile, VersionTaken, WriteFile, PutInfo, PutCurrent, AddVersion, Undo, Commit;
  }

  // Both its files then hold what the previous release's version has.
  lemma RollbackCopiesBytes(s: Server, c: nat, creator: string, w: World)
    requires Inv(s) && Effective(RollbackConfig(s, c, 0, creator, w).1, w)
    ensures c in s.db.currents && s.db.currents[c].preRelease in s.db.releases
    ensures s.db.releases[s.db.currents[c].preRelease].versionId in s.db.versions
    ensures var s' := RollbackConfig(s, c, 0, creator, w).0;
      var pre := s.db.versions[s.db.releases[s.db.currents[c].preRelease].versionId];
      && s.db.nextId in s'.db.versions && var row := s'.db.versions[s.db.nextId];
      && VersionFile(pre) in s.files && VersionFile(row) in s'.files
      && s'.files[VersionFile(row)] == s.files[VersionFile(pre)]
      && (pre.replaceDigest != "" ==>
            && ReplacementFile(pre) in s.files && ReplacementFile(row) in s'.files
            && s'.files[ReplacementFile(row)] == s.files[ReplacementFile(pre)])
  {
    RollbackRowsMean(s, c, creator, w);
    RollbackKeeps(s, c, 0, creator, w);
    var s' := RollbackConfig(s, c, 0, creator, w).0;
    assert FilesOk(s.db.versions, s.files) && FilesOk(s'.db.versions, s'.files);
    var v := s.db.releases[s.db.currents[c].preRelease].versionId;
    hide Inv, FilesOk, RollbackConfig, DigestOf, VersionFile, ReplacementFile;
    SameDigestSameFiles(s.db.versions, s.files, v, s'.db.versions, s'.files, s.db.nextId);
  }

  lemma SameDigestSameFiles(versions: Versions, files: map<string, string>, v: nat,
                            versions': Versions, files': map<string, string>, v': nat)
    requires FilesOk(versions, files) && v in versions && FilesOk(versions', files') && v' in versions'
    requires versions[v].digest == versions'[v'].digest && versions[v].replaceDigest == versions'[v'].replaceDigest
    ensures var (row, row') := (versions[v], versions'[v']);
      && VersionFile(row) in files && VersionFile(row') in files'
      && files[VersionFile(row)] == files'[VersionFile(row')]
      && (row.replaceDigest != "" ==>
            && ReplacementFile(row) in files && ReplacementFile(row') in files'
            && files[ReplacementFile(row)] == files'[ReplacementFile(row')])
  {
    DigestIsContent(versions, files, v, "");
    DigestIsContent(versions', files', v', files[VersionFile(versions[v])]);
    DigestIsContent(versions, files, v, files[VersionFile(versions[v])]);
    if versions[v].replaceDigest != "" {
      DigestIsContent(versions', files', v', files[ReplacementFile(versions[v])]);
      DigestIsContent(versions, files, v, files[ReplacementFile(versions[v])]);
    }
    hide FilesOk, VersionFile, ReplacementFile, DigestOf;
  }

  // --- Namespace releases ---

  // The rows of the query for a namespace release, in some order.
  ghost predicate Unreleased(infos: map<nat, ConfigInfo>, site: string, ns: string, ids: seq<nat>) {
    && (forall i, j :: 0 <= i < j < |ids| ==> ids[i] != ids[j])
    && (forall c :: c in ids <==>
          c in infos && infos[c].site == site && infos[c].ns == ns && infos[c].status in {"created", "updated"})
  }

  predicate IsReleased(db: Tables, c: nat) {
    && c in db.infos && db.infos[c].status == "released" && c in db.currents
    && db.currents[c].latestRelease != 0 && db.currents[c].latestRelease in db.releases
    && db.releases[db.currents[c].latestRelease].versionId == db.currents[c].latestVersion
  }

  // The newest content of each of the configs under its name.
  ghost predicate NewestContents(s: Server, ids: seq<nat>, package: set<(string, string)>) {
    forall e :: e in package <==>
      exists c :: c in ids && HasHead(s.db, c) && VersionFile(HeadRow(s.db, c)) in s.files &&
                  e == (HeadRow(s.db, c).name, s.files[VersionFile(HeadRow(s.db, c))])
  }

  ghost predicate ConfigsDone(db: Tables, t: Tables, ids: seq<nat>) {
    && t.infos.Keys == db.infos.Keys && t.versions == db.versions
    && (forall c :: c in ids ==> Released(db, t, c))
    && (forall c :: c in db.infos && c in db.currents && c !in ids ==> SameConfig(db, t, c))
  }

  lemma NamespaceDone(s: Server, site: string, ns: string, ids: seq<nat>, w: World)
    requires Inv(s) && StatusOk(s.db) && Unreleased(s.db.infos, site, ns, ids)
    requires ReleaseNamespace(s, site, ns, ids, w).1 == Done && w.abortAt != AtCommit
    ensures var s' := ReleaseNamespace(s, site, ns, ids, w).0;
      && ConfigsDone(s.db, s'.db, ids) && s'.files == s.files && (site, ns) in s'.packages
      && s'.packages == s.packages[(site, ns) := s'.packages[(site, ns)]]
      && NewestContents(s, ids, s'.packages[(site, ns)])
  {
    hide *;
    QueryIsPending(s.db.infos, site, ns, ids);
    InvTables(s);
    NamespaceReleases(s, site, ns, ids, w);
    NamespaceFrame(s, site, ns, ids, w);
    var s' := ReleaseNamespace(s, site, ns, ids, w).0;
    FoldDone(s.db, s'.db, ids);
    FoldContents(s, ids, s'.packages[(site, ns)]);
  }

  lemma QueryIsPending(infos: map<nat, ConfigInfo>, site: string, ns: string, ids: seq<nat>)
    requires Unreleased(infos, site, ns, ids)
    ensures PendingRows(infos, site, ns, ids) && Distinct(ids) && forall c :: c in ids ==> c in infos
  {
  }

  lemma FoldDone(db: Tables, t: Tables, ids: seq<nat>)
    requires t.infos.Keys == db.infos.Keys && t.versions == db.versions
    requires forall c :: c in ids ==> Released(db, t, c)
    requires forall c :: c in db.infos && c in db.currents && c !in ids ==> SameConfig(db, t, c)
    ensures ConfigsDone(db, t, ids)
  {
    hide Released, SameConfig;
  }

  lemma FoldContents(s: Server, ids: seq<nat>, package: set<(string, string)>)
    requires forall e :: e in package <==>
      exists c :: c in ids && HasHead(s.db, c) && VersionFile(HeadRow(s.db, c)) in s.files &&
                  e == (HeadRow(s.db, c).name, s.files[VersionFile(HeadRow(s.db, c))])
    ensures NewestContents(s, ids, package)
  {
    hide HasHead, VersionFile;
  }

  // Every config of the namespace is released.
  ghost predicate AllReleasedIn(db: Tables, t: Tables, site: string, ns: string) {
    forall c :: c in db.infos && db.infos[c].site == site && db.infos[c].ns == ns ==> IsReleased(t, c)
  }

  // The rows of all configs but these are as they were.
  ghost predicate OthersAlone(db: Tables, t: Tables, ids: seq<nat>) {
    forall c :: c in db.infos && c !in ids ==>
      && c in db.currents && c in t.infos && t.infos[c] == db.infos[c]
      && c in t.currents && t.currents[c] == db.currents[c]
  }

  // After a namespace release that takes effect, the newest version of every
  // config of the namespace is the one released, whether it had been released
  // before or not; the package holds the contents of those that had not.
  lemma NamespaceIsReleased(s: Server, site: string, ns: string, ids: seq<nat>, w: World)
    requires Inv(s) && StatusOk(s.db) && Unreleased(s.db.infos, site, ns, ids)
    requires Effective(ReleaseNamespace(s, site, ns, ids, w).1, w)
    ensures var s' := ReleaseNamespace(s, site, ns, ids, w).0;
      && s'.db.infos.Keys == s.db.infos.Keys && s'.db.versions == s.db.versions && s'.files == s.files
      && AllReleasedIn(s.db, s'.db, site, ns) && OthersAlone(s.db, s'.db, ids)
      && (site, ns) in s'.packages && s'.packages == s.packages[(site, ns) := s'.packages[(site, ns)]]
      && NewestContents(s, ids, s'.packages[(site, ns)])
  {
    EffectiveIs(ReleaseNamespace(s, site, ns, ids, w).1, w);
    InvTables(s);
    hide Inv, ReleaseNamespace, NewestContents;
    NamespaceDone(s, site, ns, ids, w);
    KeysAgree(s.db);
    DoneIsReleased(s.db, ReleaseNamespace(s, site, ns, ids, w).0.db, site, ns, ids);
    hide *;
  }

  lemma DoneIsReleased(db: Tables, t: Tables, site: string, ns: string, ids: seq<nat>)
    requires StatusOk(db) && Unreleased(db.infos, site, ns, ids) && ConfigsDone(db, t, ids)
    requires db.currents.Keys == db.infos.Keys
    requires forall c :: c in db.currents && db.currents[c].latestRelease != 0 ==>
      db.currents[c].latestRelease in db.releases
    ensures AllReleasedIn(db, t, site, ns) && OthersAlone(db, t, ids)
  {
    hide SameConfig, Released, StatusOk, IsReleased;
    forall c | c in db.infos && db.infos[c].site == site && db.infos[c].ns == ns ensures IsReleased(t, c) {
      if c in ids { ReleasedIs(db, t, c); } else { StillReleased(db, t, c); }
    }
    forall c | c in db.infos && c !in ids
      ensures c in db.currents && c in t.infos && t.infos[c] == db.infos[c]
      ensures c in t.currents && t.currents[c] == db.currents[c]
    {
      SameRows(db, t, c);
    }
  }

  lemma SameRows(db: Tables, t: Tables, c: nat)
    requires SameConfig(db, t, c)
    ensures c in db.infos && c in t.infos && t.infos[c] == db.infos[c]
    ensures c in db.currents && c in t.currents && t.currents[c] == db.currents[c]
  {
  }

  lemma ReleasedIs(db: Tables, t: Tables, c: nat)
    requires Released(db, t, c)
    ensures IsReleased(t, c)
  {
  }

  lemma StillReleased(db: Tables, t: Tables, c: nat)
    requires SameConfig(db, t, c) && StatusOk(db) && db.infos[c].status !in {"created", "updated"}
    requires db.currents[c].latestRelease != 0 ==> db.currents[c].latestRelease in db.releases
    ensures IsReleased(t, c)
  {
    assert StatusExact(db, c);
    SameStaleness(db, t, c);
  }

  lemma NamespaceFrame(s: Server, site: string, ns: string, ids: seq<nat>, w: World)
    requires TablesOk(s.db) && Distinct(ids) && forall c :: c in ids ==> c in s.db.infos
    requires ReleaseNamespace(s, site, ns, ids, w).1 == Done && w.abortAt != AtCommit
    ensures var s' := ReleaseNamespace(s, site, ns, ids, w).0;
      && s'.db.infos.Keys == s.db.infos.Keys && s'.db.versions == s.db.versions
      && (site, ns) in s'.packages && s'.packages == s.packages[(site, ns) := s'.packages[(site, ns)]]
  {
    hide TablesOk, ReleaseAll, PathsOf, Released, SameConfig;
    ReleaseAllKeeps(s.db, ids, w);
    hide Pack;
  }

  // A namespace release that fails changes no row. If it fails only when the
  // agents are told, the package has been replaced by then.
  lemma NamespaceFailure(s: Server, site: string, ns: string, ids: seq<nat>, w: World)
    requires Inv(s) && StatusOk(s.db) && Unreleased(s.db.infos, site, ns, ids)
    requires ReleaseNamespace(s, site, ns, ids, w).1 != Done
    ensures var s' := ReleaseNamespace(s, site, ns, ids, w).0;
      && s'.db == s.db.(nextId := s'.db.nextId) && s'.files == s.files
      && if w.abortAt == AtNotify then
           (site, ns) in s'.packages && s'.packages == s.packages[(site, ns) := s'.packages[(site, ns)]] &&
           NewestContents(s, ids, s'.packages[(site, ns)])
         else s'.packages == s.packages
  {
    hide *;
    InvTables(s);
    AllStale(s.db, site, ns, ids);
    ReleaseAllKeeps(s.db, ids, w);
    var (tx, paths, out) := ReleaseAll(s.db, ids, w);
    if out == Done {
      AllReleasedPaths(s.db, ids, w);
      PathsStored(s, ids, paths);
      PackedIs(s, ids, paths);
    }
    FailureUnfolds(s, site, ns, ids, w);
  }

  lemma AllStale(db: Tables, site: string, ns: string, ids: seq<nat>)
    requires TablesOk(db) && StatusOk(db) && Unreleased(db.infos, site, ns, ids)
    ensures Distinct(ids) && forall c :: c in ids ==> c in db.infos && Stale(db, c)
  {
    hide TablesOk, StatusOk, Stale;
    forall c | c in ids ensures c in db.infos && Stale(db, c) { PendingIsStale(db, c); }
  }

  lemma AllReleasedPaths(db: Tables, ids: seq<nat>, w: World)
    requires (forall c :: c in ids ==> c in db.infos) && AllReleased(db, ids, w) && ReleaseAll(db, ids, w).2 == Done
    ensures PathsOf(db, ids, ReleaseAll(db, ids, w).1)
  {
    hide TablesOk, PathsOf, SameConfig, Released, ReleaseAll;
  }

  lemma FailureUnfolds(s: Server, site: string, ns: string, ids: seq<nat>, w: World)
    requires forall c :: c in ids ==> c in s.db.infos
    requires ReleaseAll(s.db, ids, w).2 == Done ==>
      (forall p :: p in ReleaseAll(s.db, ids, w).1 ==> p in s.files) &&
      NewestContents(s, ids, Pack(s.files, ReleaseAll(s.db, ids, w).1))
    requires ReleaseAll(s.db, ids, w).2 == Done || w.abortAt == AtRelease
    requires ReleaseNamespace(s, site, ns, ids, w).1 != Done
    ensures var s' := ReleaseNamespace(s, site, ns, ids, w).0;
      && s'.db == s.db.(nextId := s'.db.nextId) && s'.files == s.files
      && if w.abortAt == AtNotify then
           (site, ns) in s'.packages && s'.packages == s.packages[(site, ns) := s'.packages[(site, ns)]] &&
           NewestContents(s, ids, s'.packages[(site, ns)])
         else s'.packages == s.packages
  {
    hide ReleaseAll, NewestContents, Pack;
  }

  lemma PendingIsStale(db: Tables, c: nat)
    requires TablesOk(db) && StatusOk(db) && c in db.infos && db.infos[c].status in {"created", "updated"}
    ensures Stale(db, c)
  {
    KeysAgree(db);
    assert StatusExact(db, c);
    hide TablesOk;
  }

  lemma PathsStored(s: Server, ids: seq<nat>, paths: map<string, string>)
    requires Inv(s) && PathsOf(s.db, ids, paths)
    ensures forall p :: p in paths ==> p in s.files
  {
    hide Inv, VersionFile;
    forall p | p in paths ensures p in s.files {
      var c :| c in ids && HasHead(s.db, c) && p == VersionFile(HeadRow(s.db, c));
      NewestFileStored(s, c);
    }
  }

  lemma PackedIs(s: Server, ids: seq<nat>, paths: map<string, string>)
    requires PathsOf(s.db, ids, paths) && forall p :: p in paths ==> p in s.files
    ensures NewestContents(s, ids, Pack(s.files, paths))
  {
    PackedContents(s, ids, paths);
    hide Pack, PathsOf, HasHead, VersionFile;
  }
}
