// The tables and files of the config server, and what each of its operations
// does to them. Every operation reads committed rows, writes files directly and
// collects row changes in a transaction, so an operation that stops half-way
// has already changed files but no row.
module ConfigModel {
  import opened Wrappers
  import Paths
  import Decimal

  // A stand-in for SHA-256 in hexadecimal: only injectivity and non-emptiness are
  // used.
  function DigestOf(content: string): string { "d" + Codes(content) }

  function Codes(content: string): string {
    if content == "" then "" else Decimal.Print(content[0] as int) + "a" + Codes(content[1..])
  }

  lemma DigestInjective(a: string, b: string)
    requires DigestOf(a) == DigestOf(b)
    ensures a == b
  {
    assert Codes(a) == DigestOf(a)[1..] && Codes(b) == DigestOf(b)[1..];
    CodesInjective(a, b);
  }

  lemma {:induction false} CodesInjective(a: string, b: string)
    requires Codes(a) == Codes(b)
    ensures a == b
    decreases |a|
  {
    if a != "" && b != "" {
      Decimal.PrintThenValue(a[0] as int);
      Decimal.PrintThenValue(b[0] as int);
      DigitsUnique(Decimal.Print(a[0] as int), Codes(a[1..]), Decimal.Print(b[0] as int), Codes(b[1..]));
      Decimal.PrintInjective(a[0] as int, b[0] as int);
      CodesInjective(a[1..], b[1..]);
      assert a == [a[0]] + a[1..] && b == [b[0]] + b[1..];
    }
  }

  lemma {:induction false} DigitsUnique(a: string, x: string, b: string, y: string)
    requires Decimal.AllDigits(a) && Decimal.AllDigits(b) && a + "a" + x == b + "a" + y
    ensures a == b && x == y
    decreases |a|
  {
    var l, r := a + "a" + x, b + "a" + y;
    assert l[0] == (if a == "" then 'a' else a[0]) && r[0] == (if b == "" then 'a' else b[0]);
    assert a != "" ==> Decimal.IsDigit(a[0]);
    assert b != "" ==> Decimal.IsDigit(b[0]);
    if a == "" {
      assert l[1..] == x && r[1..] == y;
    } else {
      assert l[1..] == a[1..] + "a" + x && r[1..] == b[1..] + "a" + y;
      DigitsUnique(a[1..], x, b[1..], y);
      assert a == [a[0]] + a[1..] && b == [b[0]] + b[1..];
    }
  }

  const CREATED := "created"
  const UPDATED := "updated"
  const RELEASED := "released"
  const DELETED := "deleted"
  const PROPERTIES := "property"

  datatype ConfigInfo = ConfigInfo(name: string, ns: string, site: string, desc: string, createdBy: string,
                                   format: string, status: string,
                                   tplId: nat, tplName: string, tplNs: string)

  datatype ConfigVersion = ConfigVersion(configId: nat, name: string, ns: string, site: string, version: nat,
                                         desc: string, createdBy: string, digest: string,
                                         tplId: nat, tplName: string, tplNs: string, replaceDigest: string)

  // One row per config, keyed by the config's id. Zero means "none".
  datatype Current = Current(latestVersion: nat, latestRelease: nat, preRelease: nat)

  datatype Release = Release(configId: nat, version: nat, versionId: nat, digest: string,
                             desc: string, createdBy: string)

  datatype Tables = Tables(infos: map<nat, ConfigInfo>, versions: map<nat, ConfigVersion>,
                           currents: map<nat, Current>, releases: map<nat, Release>, nextId: nat)

  datatype Server = Server(db: Tables, files: map<string, string>,
                           packages: map<(string, string), set<(string, string)>>)

  const EMPTY := Server(Tables(map[], map[], map[], map[], 1), map[], map[])

  // A request body: the row fields as sent, and the contents.
  datatype Request = Request(info: ConfigInfo, data: string, tplData: string, replaceData: string)

  // A row found in a table has a non-zero id.
  type RowId = n: nat | 0 < n witness 1

  datatype Template = NoTemplate | Template(id: RowId, name: string, ns: string)

  // The call at which an operation is cut short. A failing commit goes unnoticed.
  datatype Stage = Nowhere | AtNamespace | AtInfo | AtReplacement | AtData | AtVersion | AtCurrent
                 | AtRelease | AtPackage | AtNotify | AtCommit

  // What a failing file write leaves at its path: what was there, nothing
  // readable, or the new content after all.
  datatype Torn = Untouched | Lost | Replaced

  // What the environment answers during one operation: the rendered template
  // namespace, the merged properties, the template row, the call that fails
  // and what a failing file write leaves.
  datatype World = World(render: Option<string>, merged: Option<string>, template: Template,
                         abortAt: Stage, torn: Torn)

  datatype Failure = Invalid | Missing | Duplicate | NoUpdates | NoRollback | Unsupported | External

  datatype Outcome = Done | Failed(why: Failure)

  // --- Rows ---

  predicate ValidRequest(i: ConfigInfo) {
    i.name != "" && i.ns != "" && i.site != "" && i.createdBy != "" && i.format != ""
  }

  predicate SameKey(a: ConfigInfo, b: ConfigInfo) { a.name == b.name && a.ns == b.ns && a.site == b.site }

  // The unique index Name_Namespace_SiteID.
  predicate KeyTaken(infos: map<nat, ConfigInfo>, i: ConfigInfo, except: nat) {
    exists c :: c in infos && c != except && SameKey(infos[c], i)
  }

  // The unique index Name_Namespace_Version_ConfigInfoID.
  predicate VersionTaken(versions: map<nat, ConfigVersion>, row: ConfigVersion) {
    exists v :: v in versions && versions[v].name == row.name && versions[v].ns == row.ns &&
                versions[v].version == row.version && versions[v].configId == row.configId
  }

  // The unique index Version_ConfigInfoID.
  predicate ReleaseTaken(releases: map<nat, Release>, row: Release) {
    exists r :: r in releases && releases[r].version == row.version && releases[r].configId == row.configId
  }

  function Either(sent: string, was: string): string { if sent == "" then was else sent }

  // Updates with a struct: blank fields leave the stored ones alone.
  function MergeInfo(was: ConfigInfo, sent: ConfigInfo): ConfigInfo {
    ConfigInfo(Either(sent.name, was.name), Either(sent.ns, was.ns), Either(sent.site, was.site),
               Either(sent.desc, was.desc), Either(sent.createdBy, was.createdBy),
               Either(sent.format, was.format), Either(sent.status, was.status),
               if sent.tplId == 0 then was.tplId else sent.tplId,
               Either(sent.tplName, was.tplName), Either(sent.tplNs, was.tplNs))
  }

  function MergeCurrent(was: Current, sent: Current): Current {
    Current(if sent.latestVersion == 0 then was.latestVersion else sent.latestVersion,
            if sent.latestRelease == 0 then was.latestRelease else sent.latestRelease,
            if sent.preRelease == 0 then was.preRelease else sent.preRelease)
  }

  function PutInfo(tx: Tables, c: nat, sent: ConfigInfo): Tables {
    if c in tx.infos then tx.(infos := tx.infos[c := MergeInfo(tx.infos[c], sent)]) else tx
  }

  function PutCurrent(tx: Tables, c: nat, sent: Current): Tables {
    if c in tx.currents then tx.(currents := tx.currents[c := MergeCurrent(tx.currents[c], sent)]) else tx
  }

  function AddVersion(tx: Tables, row: ConfigVersion): Tables {
    tx.(versions := tx.versions[tx.nextId := row], nextId := tx.nextId + 1)
  }

  function AddRelease(tx: Tables, row: Release): Tables {
    tx.(releases := tx.releases[tx.nextId := row], nextId := tx.nextId + 1)
  }

  // A rolled back transaction leaves only the used-up ids behind.
  function Undo(db: Tables, tx: Tables): Tables { db.(nextId := tx.nextId) }

  function Commit(db: Tables, tx: Tables, w: World): Tables {
    if w.abortAt == AtCommit then Undo(db, tx) else tx
  }

  predicate Visible(infos: map<nat, ConfigInfo>, c: nat) { c in infos && infos[c].status != DELETED }

  // --- Files ---

  function VersionFile(v: ConfigVersion): string {
    Paths.FilePath(Paths.CONFIG_TOP, v.site, v.ns, v.name, Decimal.Print(v.version))
  }

  function ReplacementFile(v: ConfigVersion): string {
    Paths.FilePath(Paths.REPLACEMENT_TOP, v.site, v.ns, v.name, Decimal.Print(v.version))
  }

  function DataPath(i: ConfigInfo, version: nat): string {
    Paths.FilePath(Paths.CONFIG_TOP, i.site, i.ns, i.name, Decimal.Print(version))
  }

  function ReplacementPath(i: ConfigInfo, version: nat): string {
    Paths.FilePath(Paths.REPLACEMENT_TOP, i.site, i.ns, i.name, Decimal.Print(version))
  }

  function WriteFile(files: map<string, string>, path: string, content: string, fails: bool, torn: Torn)
    : map<string, string>
  {
    if !fails || torn == Replaced then files[path := content] else if torn == Lost then files - {path} else files
  }

  datatype Stored = Stored(files: map<string, string>, ok: bool, digest: string, replaceDigest: string)

  predicate FromTemplate(req: Request) { req.info.format == PROPERTIES && req.tplData != "" }

  function StoreData(files: map<string, string>, req: Request, version: nat, w: World): Stored {
    if FromTemplate(req) && w.merged.None? then Stored(files, false, "", "")
    else if FromTemplate(req) && w.abortAt == AtReplacement then
      Stored(WriteFile(files, ReplacementPath(req.info, version), req.replaceData, true, w.torn), false, "", "")
    else
      var data := if FromTemplate(req) then w.merged.value else req.data;
      var files1 := if FromTemplate(req)
        then WriteFile(files, ReplacementPath(req.info, version), req.replaceData, false, w.torn) else files;
      var files2 := WriteFile(files1, DataPath(req.info, version), data, w.abortAt == AtData, w.torn);
      if w.abortAt == AtData then Stored(files2, false, "", "")
      else Stored(files2, true, DigestOf(data), if FromTemplate(req) then DigestOf(req.replaceData) else "")
  }

  // --- The operations ---

  function FirstVersion(c: nat, i: ConfigInfo, st: Stored, w: World): ConfigVersion {
    var plain := ConfigVersion(c, i.name, i.ns, i.site, 1, i.desc, i.createdBy, st.digest, 0, "", "", "");
    if i.tplName != "" && i.tplNs != "" && w.template.Template? then
      plain.(tplId := w.template.id, tplName := i.tplName, tplNs := i.tplNs, replaceDigest := st.replaceDigest)
    else plain
  }

  function AddConfig(s: Server, req: Request, w: World): (Server, Outcome) {
    if !ValidRequest(req.info) then (s, Failed(Invalid))
    else if w.abortAt == AtNamespace || w.abortAt == AtInfo then (s, Failed(External))
    else if KeyTaken(s.db.infos, req.info, 0) then (s, Failed(Duplicate))
    else
      var c := s.db.nextId;
      var tx1 := s.db.(infos := s.db.infos[c := req.info.(status := CREATED)], nextId := c + 1);
      if w.render.None? then (s.(db := Undo(s.db, tx1)), Failed(External))
      else
        var rendered := req.(info := req.info.(status := CREATED, tplNs := w.render.value));
        var st := StoreData(s.files, rendered, 1, w);
        if !st.ok then (s.(db := Undo(s.db, tx1), files := st.files), Failed(External))
        else if rendered.info.tplName != "" && rendered.info.tplNs != "" && w.template.NoTemplate? then
          (s.(db := Undo(s.db, tx1), files := st.files), Failed(Missing))
        else
          var row := FirstVersion(c, rendered.info, st, w);
          if w.abortAt == AtVersion then (s.(db := Undo(s.db, tx1), files := st.files), Failed(External))
          else
            var v := tx1.nextId;
            var tx2 := AddVersion(tx1, row);
            if w.abortAt == AtCurrent then (s.(db := Undo(s.db, tx2), files := st.files), Failed(External))
            else
              var tx3 := tx2.(currents := tx2.currents[c := Current(v, 0, 0)]);
              (s.(db := Commit(s.db, tx3, w), files := st.files), Done)
  }

  predicate NeedNewVersion(was: ConfigVersion, sent: ConfigInfo, digest: string, replaceDigest: string) {
    !(was.ns == sent.ns && was.name == sent.name && was.desc == sent.desc && was.digest == digest &&
      was.replaceDigest == replaceDigest && was.tplId == sent.tplId)
  }

  predicate UsesTemplate(i: ConfigInfo) {
    i.format == PROPERTIES && i.tplId != 0 && i.tplName != "" && i.tplNs != ""
  }

  function NextVersion(c: nat, was: ConfigVersion, i: ConfigInfo, st: Stored, w: World): ConfigVersion {
    var plain := ConfigVersion(c, i.name, i.ns, i.site, was.version + 1, i.desc, i.createdBy, st.digest, 0, "", "", "");
    if UsesTemplate(i) && w.template.Template? then
      plain.(tplId := i.tplId, tplName := w.template.name, tplNs := w.template.ns, replaceDigest := st.replaceDigest)
    else plain
  }

  // The rows an update changes once its data is stored.
  function UpdateRows(db: Tables, c: nat, info: ConfigInfo, rendered: ConfigInfo, st: Stored, w: World)
    : (Tables, Outcome)
    requires c in db.currents && db.currents[c].latestVersion in db.versions
  {
    var cur := db.currents[c];
    var was := db.versions[cur.latestVersion];
    if !NeedNewVersion(was, rendered, st.digest, st.replaceDigest) then
      UpdateHeads(db, db, c, info, cur, w)
    else if UsesTemplate(rendered) && w.template.NoTemplate? then (db, Failed(Missing))
    else
      var row := NextVersion(c, was, rendered, st, w);
      if w.abortAt == AtVersion then (db, Failed(External))
      else if VersionTaken(db.versions, row) then (db, Failed(Duplicate))
      else
        var v := db.nextId;
        UpdateHeads(db, AddVersion(db, row), c,
                    if info.status != CREATED then info.(status := UPDATED) else info,
                    cur.(latestVersion := v), w)
  }

  function UpdateHeads(db: Tables, tx: Tables, c: nat, info: ConfigInfo, cur: Current, w: World): (Tables, Outcome) {
    if w.abortAt == AtInfo then (Undo(db, tx), Failed(External))
    else if KeyTaken(tx.infos, info, c) then (Undo(db, tx), Failed(Duplicate))
    else if w.abortAt == AtCurrent then (Undo(db, tx), Failed(External))
    else (Commit(db, PutCurrent(PutInfo(tx, c, info), c, cur), w), Done)
  }

  function UpdateConfig(s: Server, c: nat, req: Request, w: World): (Server, Outcome) {
    if !ValidRequest(req.info) then (s, Failed(Invalid))
    else if w.render.None? then (s, Failed(External))
    else if c !in s.db.currents || s.db.currents[c].latestVersion !in s.db.versions then (s, Failed(Missing))
    else
      var was := s.db.versions[s.db.currents[c].latestVersion];
      var rendered := req.(info := req.info.(tplNs := w.render.value));
      var st := StoreData(s.files, rendered, was.version + 1, w);
      if !st.ok then (s.(files := st.files), Failed(External))
      else
        var rows := UpdateRows(s.db, c, req.info, rendered.info, st, w);
        (s.(db := rows.0, files := st.files), rows.1)
  }

  // releaseConfig: reads the committed rows, writes to the transaction, and
  // names the version it released.
  function ReleaseInto(db: Tables, tx: Tables, c: nat, info: ConfigInfo, w: World): (Tables, Outcome) {
    if c !in db.currents || db.currents[c].latestVersion !in db.versions then (tx, Failed(Missing))
    else
      var cur := db.currents[c];
      if cur.latestRelease != 0 && cur.latestRelease !in db.releases then (tx, Failed(Missing))
      else if cur.latestRelease != 0 && db.releases[cur.latestRelease].versionId == cur.latestVersion then
        (tx, Failed(NoUpdates))
      else
        var row := Release(c, (if cur.latestRelease == 0 then 0 else db.releases[cur.latestRelease].version) + 1,
                           cur.latestVersion, db.versions[cur.latestVersion].digest, info.desc, info.createdBy);
        if w.abortAt == AtRelease then (tx, Failed(External))
        else if ReleaseTaken(tx.releases, row) then (tx, Failed(Duplicate))
        else
          var tx1 := PutCurrent(AddRelease(tx, row), c, Current(cur.latestVersion, tx.nextId, cur.latestRelease));
          (PutInfo(tx1, c, info.(status := RELEASED)), Done)
  }

  function ReleaseConfig(s: Server, c: nat, w: World): (Server, Outcome) {
    if !Visible(s.db.infos, c) then (s, Failed(Missing))
    else
      var r := ReleaseInto(s.db, s.db, c, s.db.infos[c], w);
      if r.1.Failed? then (s.(db := Undo(s.db, r.0)), r.1)
      else if w.abortAt == AtNotify then (s.(db := Undo(s.db, r.0)), Failed(External))
      else (s.(db := Commit(s.db, r.0, w)), Done)
  }

  function RollbackVersion(pre: ConfigVersion, latest: ConfigVersion, creator: string): ConfigVersion {
    pre.(version := latest.version + 1, createdBy := creator)
  }

  function RollbackConfig(s: Server, c: nat, versionId: nat, creator: string, w: World): (Server, Outcome) {
    if versionId != 0 then (s, Failed(Unsupported))
    else if !Visible(s.db.infos, c) || c !in s.db.currents then (s, Failed(Missing))
    else
      var cur := s.db.currents[c];
      if cur.preRelease == 0 then (s, Failed(NoRollback))
      else if cur.preRelease !in s.db.releases || s.db.releases[cur.preRelease].versionId !in s.db.versions then
        (s, Failed(Missing))
      else
        var pre := s.db.versions[s.db.releases[cur.preRelease].versionId];
        if VersionFile(pre) !in s.files then (s, Failed(Missing))
        else if pre.tplId != 0 && (w.template.NoTemplate? || ReplacementFile(pre) !in s.files) then (s, Failed(Missing))
        else if cur.latestVersion !in s.db.versions then (s, Failed(Missing))
        else
          var data := s.files[VersionFile(pre)];
          var replaceData := if pre.tplId != 0 then s.files[ReplacementFile(pre)] else "";
          var row := RollbackVersion(pre, s.db.versions[cur.latestVersion], creator);
          if w.abortAt == AtVersion then (s, Failed(External))
          else if VersionTaken(s.db.versions, row) then (s, Failed(Duplicate))
          else
            var tx := AddVersion(s.db, row);
            var files1 := WriteFile(s.files, VersionFile(row), data, w.abortAt == AtData, w.torn);
            if w.abortAt == AtData then (s.(db := Undo(s.db, tx), files := files1), Failed(External))
            else
              var files2 := WriteFile(files1, ReplacementFile(row), replaceData, w.abortAt == AtReplacement, w.torn);
              if w.abortAt == AtReplacement || w.abortAt == AtCurrent || w.abortAt == AtInfo then
                (s.(db := Undo(s.db, tx), files := files2), Failed(External))
              else
                var tx1 := PutCurrent(tx, c, cur.(latestVersion := s.db.nextId));
                var tx2 := PutInfo(tx1, c, s.db.infos[c].(status := UPDATED));
                (s.(db := Commit(s.db, tx2, w), files := files2), Done)
  }

  // --- Releasing a whole namespace ---

  predicate Pending(i: ConfigInfo, site: string, ns: string) {
    i.site == site && i.ns == ns && (i.status == CREATED || i.status == UPDATED)
  }

  // The rows of the query, in whatever order the database returns them.
  ghost predicate PendingRows(infos: map<nat, ConfigInfo>, site: string, ns: string, ids: seq<nat>) {
    && (forall i, j :: 0 <= i < j < |ids| ==> ids[i] != ids[j])
    && (forall c :: c in ids <==> c in infos && Pending(infos[c], site, ns))
  }

  // packConfigs: releases the configs one after the other in one transaction
  // and collects the file of each, by path.
  function ReleaseAll(db: Tables, ids: seq<nat>, w: World): (Tables, map<string, string>, Outcome)
    requires forall c :: c in ids ==> c in db.infos
  {
    if ids == [] then (db, map[], Done)
    else
      var c := ids[|ids|-1];
      assert c in ids;
      var (tx, paths, out) := ReleaseAll(db, ids[..|ids|-1], w);
      if out.Failed? then (tx, paths, out)
      else
        var r := ReleaseInto(db, tx, c, db.infos[c], w);
        if r.1.Failed? then (r.0, paths, r.1)
        else
          var v := db.versions[db.currents[c].latestVersion];
          (r.0, paths[VersionFile(v) := v.name], Done)
  }

  // The tar entries: the name and the content behind every collected path.
  function Pack(files: map<string, string>, paths: map<string, string>): set<(string, string)>
    requires forall p :: p in paths ==> p in files
  {
    set p | p in paths :: (paths[p], files[p])
  }

  function ReleaseNamespace(s: Server, site: string, ns: string, ids: seq<nat>, w: World): (Server, Outcome)
    requires forall c :: c in ids ==> c in s.db.infos
  {
    var (tx, paths, out) := ReleaseAll(s.db, ids, w);
    if out.Failed? then (s.(db := Undo(s.db, tx)), out)
    else if exists p :: p in paths && p !in s.files then (s.(db := Undo(s.db, tx)), Failed(Missing))
    else if w.abortAt == AtPackage then (s.(db := Undo(s.db, tx)), Failed(External))
    else
      var packed := s.(packages := s.packages[(site, ns) := Pack(s.files, paths)]);
      if w.abortAt == AtNotify then (packed.(db := Undo(s.db, tx)), Failed(External))
      else (packed.(db := Commit(s.db, tx, w)), Done)
  }
}
