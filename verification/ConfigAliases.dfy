// Configs of different keys that share files: the unique index of the table sees
// two keys where the file store sees one path. This is the one way in which
// adding a config can break the agreement of rows and files.
module ConfigAliases {
  import opened ConfigModel
  import opened ConfigProofs
  import opened ConfigSteps
  import opened ConfigRuns
  import opened Wrappers
  import opened Folders
  import Paths

  // The row promises that the content at path has this digest.
  predicate Claims(row: ConfigVersion, path: string, digest: string) {
    || (path == VersionFile(row) && digest == row.digest)
    || (row.replaceDigest != "" && path == ReplacementFile(row) && digest == row.replaceDigest)
  }

  lemma StoredIffClaims(row: ConfigVersion, files: map<string, string>)
    ensures RowStored(row, files) <==> forall path, digest :: Claims(row, path, digest) ==> Holds(files, path, digest)
  {
    hide VersionFile, ReplacementFile;
    assert Claims(row, VersionFile(row), row.digest);
    assert row.replaceDigest != "" ==> Claims(row, ReplacementFile(row), row.replaceDigest);
  }

  // A path gets this content, or loses what it held.
  datatype Put = Put(path: string, content: Option<string>)

  function AfterPuts(files: map<string, string>, puts: seq<Put>): map<string, string> {
    if puts == [] then files
    else
      var (before, p) := (AfterPuts(files, puts[..|puts|-1]), puts[|puts|-1]);
      if p.content.Some? then before[p.path := p.content.value] else before - {p.path}
  }

  // What is at the path in the end agrees with the digest, if it was put there.
  predicate PutsAgree(puts: seq<Put>, path: string, digest: string) {
    puts == [] ||
      var p := puts[|puts|-1];
      if p.path == path then p.content.Some? && DigestOf(p.content.value) == digest
      else PutsAgree(puts[..|puts|-1], path, digest)
  }

  // Every committed promise about a path that is written agrees with the bytes
  // left there.
  ghost predicate Harmless(versions: Versions, puts: seq<Put>) {
    forall v, path, digest :: v in versions && Claims(versions[v], path, digest) ==> PutsAgree(puts, path, digest)
  }

  lemma {:induction false} ClaimAfter(files: map<string, string>, puts: seq<Put>, path: string, digest: string)
    requires Holds(files, path, digest)
    ensures Holds(AfterPuts(files, puts), path, digest) <==> PutsAgree(puts, path, digest)
    decreases |puts|
  {
    if puts != [] {
      var front := puts[..|puts|-1];
      hide DigestOf;
      if puts[|puts|-1].path != path {
        ClaimAfter(files, front, path, digest);
        assert Holds(AfterPuts(files, puts), path, digest) <==> Holds(AfterPuts(files, front), path, digest);
      }
    }
  }

  lemma PutsIff(versions: Versions, files: map<string, string>, puts: seq<Put>)
    requires FilesOk(versions, files)
    ensures FilesOk(versions, AfterPuts(files, puts)) <==> Harmless(versions, puts)
  {
    hide Claims, RowStored, AfterPuts, PutsAgree;
    var after := AfterPuts(files, puts);
    forall v | v in versions
      ensures RowStored(versions[v], files)
      ensures RowStored(versions[v], after) <==>
        forall path, digest :: Claims(versions[v], path, digest) ==> Holds(after, path, digest)
      ensures forall path, digest :: Claims(versions[v], path, digest) ==> Holds(files, path, digest)
    {
      StoredRow(versions, files, v);
      StoredIffClaims(versions[v], files);
      StoredIffClaims(versions[v], after);
    }
    forall v, path, digest | v in versions && Claims(versions[v], path, digest)
      ensures Holds(after, path, digest) <==> PutsAgree(puts, path, digest)
    {
      ClaimAfter(files, puts, path, digest);
    }
    hide Holds;
  }

  // --- What an add writes ---

  // The add gets as far as storing data.
  predicate Stores(s: Server, req: Request, w: World) {
    && ValidRequest(req.info) && w.abortAt != AtNamespace && w.abortAt != AtInfo
    && !KeyTaken(s.db.infos, req.info, 0) && w.render.Some? && (FromTemplate(req) ==> w.merged.Some?)
  }

  // A failing write leaves what was there, nothing or all of it.
  function Torn(path: string, content: string, torn: ConfigModel.Torn): seq<Put> {
    match torn
    case Untouched => []
    case Lost => [Put(path, None)]
    case Replaced => [Put(path, Some(content))]
  }

  function DataOf(req: Request, w: World): string
    requires FromTemplate(req) ==> w.merged.Some?
  {
    if FromTemplate(req) then w.merged.value else req.data
  }

  // The replacement values of a templated config first, then its data.
  function PutsOf(req: Request, w: World): seq<Put>
    requires FromTemplate(req) ==> w.merged.Some?
  {
    var (d, r) := (DataPath(req.info, 1), ReplacementPath(req.info, 1));
    if FromTemplate(req) && w.abortAt == AtReplacement then Torn(r, req.replaceData, w.torn)
    else
      (if FromTemplate(req) then [Put(r, Some(req.replaceData))] else []) +
      (if w.abortAt == AtData then Torn(d, DataOf(req, w), w.torn) else [Put(d, Some(DataOf(req, w)))])
  }

  lemma TornIsPut(files: map<string, string>, puts: seq<Put>, path: string, content: string, torn: ConfigModel.Torn)
    ensures AfterPuts(files, puts + Torn(path, content, torn)) ==
      WriteFile(AfterPuts(files, puts), path, content, true, torn)
  {
    var all := puts + Torn(path, content, torn);
    if torn == Untouched { assert all == puts; } else { assert all[..|all|-1] == puts; }
  }

  lemma PutIsWrite(files: map<string, string>, puts: seq<Put>, path: string, content: string, torn: ConfigModel.Torn)
    ensures AfterPuts(files, puts + [Put(path, Some(content))]) ==
      WriteFile(AfterPuts(files, puts), path, content, false, torn)
  {
    var all := puts + [Put(path, Some(content))];
    assert all[..|all|-1] == puts;
  }

  lemma NothingPut(files: map<string, string>, more: seq<Put>)
    ensures AfterPuts(files, []) == files && [] + more == more
  {
  }

  lemma StoredFiles(files: map<string, string>, req: Request, w: World)
    requires FromTemplate(req) ==> w.merged.Some?
    ensures StoreData(files, req, 1, w).files == AfterPuts(files, PutsOf(req, w))
  {
    hide DataPath, ReplacementPath, FromTemplate, WriteFile, Torn, AfterPuts;
    var (d, r) := (DataPath(req.info, 1), ReplacementPath(req.info, 1));
    NothingPut(files, Torn(r, req.replaceData, w.torn));
    NothingPut(files, [Put(r, Some(req.replaceData))]);
    TornIsPut(files, [], r, req.replaceData, w.torn);
    PutIsWrite(files, [], r, req.replaceData, w.torn);
    var front := if FromTemplate(req) then [Put(r, Some(req.replaceData))] else [];
    TornIsPut(files, front, d, DataOf(req, w), w.torn);
    PutIsWrite(files, front, d, DataOf(req, w), w.torn);
  }

  lemma AddStores(s: Server, req: Request, w: World)
    ensures var after := AddConfig(s, req, w);
      && (Stores(s, req, w) ==> after.0.files == StoreData(s.files, Rendered(req, w), 1, w).files)
      && (!Stores(s, req, w) ==> after.0.files == s.files)
  {
    hide KeyTaken, FirstVersion, StoreData, Undo, Commit, AddVersion, ValidRequest;
    if w.render.Some? { NothingStored(s.files, req, w); }
    hide FromTemplate;
  }

  lemma AddUndone(s: Server, req: Request, w: World)
    ensures var after := AddConfig(s, req, w); !Effective(after.1, w) ==> after.0.db.versions == s.db.versions
  {
    hide KeyTaken, FirstVersion, StoreData, ValidRequest;
  }

  lemma NothingStored(files: map<string, string>, req: Request, w: World)
    requires w.render.Some?
    ensures FromTemplate(req) && w.merged.None? ==> StoreData(files, Rendered(req, w), 1, w).files == files
  {
    hide WriteFile, DataPath, ReplacementPath;
  }

  lemma RenderedPuts(req: Request, w: World)
    requires w.render.Some? && (FromTemplate(req) ==> w.merged.Some?)
    ensures (FromTemplate(Rendered(req, w)) <==> FromTemplate(req)) && PutsOf(Rendered(req, w), w) == PutsOf(req, w)
  {
    hide Paths.FilePath, Torn;
  }

  // An add leaves the versions alone unless it takes effect, and the files that
  // its writes make.
  lemma AddedFiles(s: Server, req: Request, w: World)
    ensures var after := AddConfig(s, req, w);
      && after.0.files == (if Stores(s, req, w) then AfterPuts(s.files, PutsOf(req, w)) else s.files)
      && (!Effective(after.1, w) ==> after.0.db.versions == s.db.versions)
  {
    hide AddConfig, PutsOf, StoreData, KeyTaken, AfterPuts, FromTemplate;
    AddStores(s, req, w);
    AddUndone(s, req, w);
    if Stores(s, req, w) {
      RenderedPuts(req, w);
      StoredFiles(s.files, Rendered(req, w), w);
    }
  }

  // The new row's own two files do not get in each other's way.
  predicate OwnFilesAgree(req: Request, w: World)
    requires FromTemplate(req) ==> w.merged.Some?
  {
    FromTemplate(req) && req.info.tplName != "" && w.render.Some? && w.render.value != "" &&
    DataPath(req.info, 1) == ReplacementPath(req.info, 1) ==>
      w.merged.value == req.replaceData
  }

  function FirstRow(s: Server, req: Request, w: World): ConfigVersion
    requires w.render.Some?
  {
    FirstVersion(s.db.nextId, Rendered(req, w).info, StoreData(s.files, Rendered(req, w), 1, w), w)
  }

  // The data is written in full.
  predicate WritesData(req: Request, w: World) {
    (FromTemplate(req) ==> w.abortAt != AtReplacement) && w.abortAt != AtData
  }

  // What an add that takes effect has done.
  lemma EffectiveAdd(s: Server, req: Request, w: World)
    requires Effective(AddConfig(s, req, w).1, w)
    ensures Stores(s, req, w) && WritesData(req, w)
    ensures AddConfig(s, req, w).0.db.versions == s.db.versions[s.db.nextId + 1 := FirstRow(s, req, w)]
    ensures StoreData(s.files, Rendered(req, w), 1, w).ok
    ensures (req.info.tplName != "" && w.render.value != "") ==> w.template.Template?
  {
    hide Paths.FilePath, FirstVersion, KeyTaken;
  }

  lemma FirstRowStored(s: Server, req: Request, w: World)
    requires w.render.Some? && (FromTemplate(req) ==> w.merged.Some?) && StoreData(s.files, Rendered(req, w), 1, w).ok
    requires WritesData(req, w)
    requires (req.info.tplName != "" && w.render.value != "") ==> w.template.Template?
    ensures RowStored(FirstRow(s, req, w), AfterPuts(s.files, PutsOf(req, w))) <==> OwnFilesAgree(req, w)
  {
    var (row, data) := (FirstRow(s, req, w), DataOf(req, w));
    var (d, r) := (DataPath(req.info, 1), ReplacementPath(req.info, 1));
    FirstRowIs(s, req, w);
    PutsInOrder(req, w);
    TwoPuts(s.files, r, req.replaceData, d, data);
    DigestNotEmpty(req.replaceData);
    if DigestOf(data) == DigestOf(req.replaceData) { DigestInjective(data, req.replaceData); }
    hide AfterPuts, DigestOf, VersionFile, ReplacementFile, DataPath, ReplacementPath, FirstRow, PutsOf, FromTemplate,
      StoreData;
  }

  lemma FirstRowIs(s: Server, req: Request, w: World)
    requires w.render.Some? && (FromTemplate(req) ==> w.merged.Some?) && StoreData(s.files, Rendered(req, w), 1, w).ok
    requires (req.info.tplName != "" && w.render.value != "") ==> w.template.Template?
    ensures var row := FirstRow(s, req, w);
      && VersionFile(row) == DataPath(req.info, 1) && ReplacementFile(row) == ReplacementPath(req.info, 1)
      && row.digest == DigestOf(DataOf(req, w))
      && row.replaceDigest ==
           (if FromTemplate(req) && req.info.tplName != "" && w.render.value != "" then DigestOf(req.replaceData)
             else "")
  {
    hide Paths.FilePath, DigestOf, WriteFile;
  }

  lemma PutsInOrder(req: Request, w: World)
    requires (FromTemplate(req) ==> w.merged.Some?) && WritesData(req, w)
    ensures var (d, r) := (Put(DataPath(req.info, 1), Some(DataOf(req, w))),
      Put(ReplacementPath(req.info, 1), Some(req.replaceData)));
      PutsOf(req, w) == if FromTemplate(req) then [r, d] else [d]
  {
    hide DataPath, ReplacementPath, FromTemplate, DataOf, Torn;
  }

  lemma DigestNotEmpty(content: string)
    ensures DigestOf(content) != ""
  {
  }

  lemma TwoPuts(files: map<string, string>, r: string, x: string, d: string, y: string)
    ensures var one := AfterPuts(files, [Put(d, Some(y))]); d in one && one[d] == y
    ensures var two := AfterPuts(files, [Put(r, Some(x)), Put(d, Some(y))]);
      d in two && two[d] == y && r in two && two[r] == if r == d then y else x
  {
    assert [Put(d, Some(y))][..0] == [] && [Put(r, Some(x))][..0] == [];
    assert [Put(r, Some(x)), Put(d, Some(y))][..1] == [Put(r, Some(x))];
  }

  lemma OneMoreRow(versions: Versions, id: nat, row: ConfigVersion, files: map<string, string>)
    requires id !in versions
    ensures FilesOk(versions[id := row], files) <==> FilesOk(versions, files) && RowStored(row, files)
  {
    hide RowStored;
    if FilesOk(versions[id := row], files) {
      StoredRow(versions[id := row], files, id);
      forall v | v in versions ensures RowStored(versions[v], files) { StoredRow(versions[id := row], files, v); }
    }
  }

  // Whatever the outcome and wherever it is cut short, an add keeps the agreement
  // of rows and files if and only if it writes nothing, or no committed row
  // promises other bytes at a path it writes nor, if it takes effect, its own two
  // files. Nothing is assumed of the names.
  lemma AddAgreesIff(s: Server, req: Request, w: World)
    requires FilesOk(s.db.versions, s.files) && s.db.nextId + 1 !in s.db.versions
    ensures var after := AddConfig(s, req, w);
      FilesOk(after.0.db.versions, after.0.files) <==>
      !Stores(s, req, w) ||
      (Harmless(s.db.versions, PutsOf(req, w)) && (Effective(after.1, w) ==> OwnFilesAgree(req, w)))
  {
    AddedFiles(s, req, w);
    if Stores(s, req, w) { PutsIff(s.db.versions, s.files, PutsOf(req, w)); }
    if Effective(AddConfig(s, req, w).1, w) {
      EffectiveAdd(s, req, w);
      FirstRowStored(s, req, w);
      OneMoreRow(s.db.versions, s.db.nextId + 1, FirstRow(s, req, w), AfterPuts(s.files, PutsOf(req, w)));
    }
    hide *;
  }

  // --- The case of the leading slash ---

  // In a consistent state: once an add has written data into the folder of a
  // config with a version 1, and whether it then takes effect or is rolled back,
  // rows and files agree only if the bytes are the same, whatever the keys are.
  lemma SharedFolderBreaks(s: Server, req: Request, w: World, v: nat)
    requires Inv(s) && Stores(s, req, w) && WritesData(req, w)
    requires v in s.db.versions && s.db.versions[v].version == 1
    requires FolderOf(Paths.CONFIG_TOP, RowKey(s.db.versions[v])) == FolderOf(Paths.CONFIG_TOP, KeyOf(req.info))
    ensures FilesOk(AddConfig(s, req, w).0.db.versions, AddConfig(s, req, w).0.files) ==>
      s.db.versions[v].digest == DigestOf(DataOf(req, w))
  {
    hide *;
    StoresPuts(s, req, w);
    var (row, i, puts) := (s.db.versions[v], req.info, PutsOf(req, w));
    FreshIds(s.db) by { InvTables(s); }
    InvFiles(s);
    AddAgreesIff(s, req, w);
    SharedPath(row, i);
    LastAgrees(puts, DataPath(i, 1), DataOf(req, w), row.digest);
    if Harmless(s.db.versions, puts) { HarmlessRow(s.db.versions, puts, v, DataPath(i, 1), row.digest); }
  }

  lemma StoresPuts(s: Server, req: Request, w: World)
    requires Stores(s, req, w)
    ensures FromTemplate(req) ==> w.merged.Some?
    ensures WritesData(req, w) ==>
      PutsOf(req, w) != [] && PutsOf(req, w)[|PutsOf(req, w)|-1] == Put(DataPath(req.info, 1), Some(DataOf(req, w)))
  {
    hide KeyTaken, DataPath, ReplacementPath, DataOf, Torn;
  }

  lemma SharedPath(row: ConfigVersion, i: ConfigInfo)
    requires row.version == 1 && FolderOf(Paths.CONFIG_TOP, RowKey(row)) == FolderOf(Paths.CONFIG_TOP, KeyOf(i))
    ensures Claims(row, DataPath(i, 1), row.digest)
  {
    hide Folder, Paths.FilePath;
    VersionPathIff(Paths.CONFIG_TOP, row.site, row.ns, row.name, 1, Paths.CONFIG_TOP, i.site, i.ns, i.name, 1);
  }

  lemma LastAgrees(puts: seq<Put>, path: string, content: string, digest: string)
    requires puts != [] && puts[|puts|-1] == Put(path, Some(content))
    ensures PutsAgree(puts, path, digest) <==> digest == DigestOf(content)
  {
    hide DigestOf;
  }

  lemma HarmlessRow(versions: Versions, puts: seq<Put>, v: nat, path: string, digest: string)
    requires Harmless(versions, puts) && v in versions && Claims(versions[v], path, digest)
    ensures PutsAgree(puts, path, digest)
  {
    hide Claims, PutsAgree;
  }

  lemma InvTables(s: Server)
    requires Inv(s)
    ensures TablesOk(s.db)
  {
  }

  lemma FreshIds(db: Tables)
    requires TablesOk(db)
    ensures db.nextId + 1 !in db.versions
  {
  }

  lemma InvFiles(s: Server)
    requires Inv(s)
    ensures FilesOk(s.db.versions, s.files)
  {
  }

  function Plainly(name: string, data: string): Request {
    Request(ConfigInfo(name, "ns", "site", "", "me", "text", "", 0, "", ""), data, "", "")
  }

  const CALM := World(Some(""), None, NoTemplate, Nowhere, Untouched)

  // From the empty server, "n" and then "/n" with other bytes are both accepted,
  // and rows and files no longer agree; nor do they if the second add is rolled
  // back after its data has been written.
  lemma LeadingSlashAlias(w: World)
    requires w == CALM || w == CALM.(abortAt := AtVersion)
    ensures var first := AddConfig(EMPTY, Plainly("n", "x"), CALM);
      var second := AddConfig(first.0, Plainly("/n", "y"), w);
      && Inv(first.0) && first.1 == Done && second.1 == (if w == CALM then Done else Failed(External))
      && !FilesOk(second.0.db.versions, second.0.files)
  {
    hide *;
    var first := AddConfig(EMPTY, Plainly("n", "x"), CALM);
    FirstFits();
    AddKeeps(EMPTY, Plainly("n", "x"), CALM);
    FirstAdd();
    SecondAdd(w);
    SlashExample();
    SharedFolderBreaks(first.0, Plainly("/n", "y"), w, 2);
    if DigestOf("x") == DigestOf("y") { DigestInjective("x", "y"); }
  }

  lemma FirstFits()
    ensures Inv(EMPTY) && FitsIn(EMPTY.db.infos, Plainly("n", "x").info)
  {
    TidyExample();
    EmptyInv();
  }

  lemma SlashExample()
    ensures FolderOf(Paths.CONFIG_TOP, Key("site", "ns", "n")) ==
      FolderOf(Paths.CONFIG_TOP, KeyOf(Plainly("/n", "y").info))
  {
    assert Paths.Stripped("/n") == "n" && Paths.Stripped("n") == "n";
    hide Normal;
  }

  lemma TidyExample()
    ensures TwoFolders(Key("site", "ns", "n"))
  {
    Paths.SplitSingle("n");
    assert Paths.Stripped("n") == "n";
    TidyApartIff(Key("site", "ns", "n"), Key("site", "ns", "n"));
  }

  lemma FirstAdd()
    ensures var first := AddConfig(EMPTY, Plainly("n", "x"), CALM);
      && first.1 == Done && first.0.db.infos == map[1 := Plainly("n", "x").info.(status := CREATED)]
      && 2 in first.0.db.versions && first.0.db.versions[2].version == 1 &&
        first.0.db.versions[2].digest == DigestOf("x")
      && RowKey(first.0.db.versions[2]) == Key("site", "ns", "n")
  {
    hide Paths.FilePath;
  }

  lemma SecondAdd(w: World)
    requires w == CALM || w == CALM.(abortAt := AtVersion)
    ensures var first := AddConfig(EMPTY, Plainly("n", "x"), CALM);
      && Stores(first.0, Plainly("/n", "y"), w) && WritesData(Plainly("/n", "y"), w)
      && AddConfig(first.0, Plainly("/n", "y"), w).1 == (if w == CALM then Done else Failed(External))
    ensures DataOf(Plainly("/n", "y"), w) == "y"
  {
    var first := AddConfig(EMPTY, Plainly("n", "x"), CALM);
    FirstAdd();
    hide Paths.FilePath;
    var i := Plainly("/n", "y").info;
    assert i.name[0] == '/' && Plainly("n", "x").info.name[0] == 'n';
    assert !KeyTaken(first.0.db.infos, i, 0);
    var st := StoreData(first.0.files, Rendered(Plainly("/n", "y"), w), 1, w);
    assert st.ok;
    hide StoreData, KeyTaken;
  }
}
