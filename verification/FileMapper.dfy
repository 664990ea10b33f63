// The agent's record of which digest it holds for every file, and the updates
// that maintain it: single files that were downloaded, and packages that are
// unpacked file by file.
module FileMapper {
  import opened Wrappers
  import Paths

  type Mapper = map<string, map<string, string>>

  datatype FileData = FileData(ns: string, name: string, digest: string)

  function Ensured(m: Mapper, ns: string): Mapper { if ns in m then m else m[ns := map[]] }

  predicate Has(m: Mapper, ns: string, name: string) { ns in m && name in m[ns] }

  // What Get answers: the digest, or nothing.
  function DigestIn(m: Mapper, ns: string, name: string): string { if Has(m, ns, name) then m[ns][name] else "" }

  function Updated(m: Mapper, ns: string, target: map<string, string>): Mapper {
    var was := Ensured(m, ns);
    was[ns := was[ns] + target]
  }

  // An update is skipped when the digest is found in the mapper, under the digest
  // itself instead of the namespace, and the file is on disk.
  predicate Skips(m: Mapper, d: FileData, onDisk: bool) { DigestIn(m, d.digest, d.name) == d.digest && onDisk }

  // The new mapper, and whether subscribers are notified.
  function FileUpdated(m: Mapper, d: FileData, onDisk: bool): (Mapper, bool) {
    var looked := Ensured(m, d.digest);
    if Skips(m, d, onDisk) then (looked, false) else (Updated(looked, d.ns, map[d.name := d.digest]), true)
  }

  // --- What the operations mean for every file ---

  lemma EnsuredSame(m: Mapper, ns: string, other: string, name: string)
    ensures Has(Ensured(m, ns), other, name) <==> Has(m, other, name)
    ensures DigestIn(Ensured(m, ns), other, name) == DigestIn(m, other, name)
  {
  }

  lemma UpdatedDigest(m: Mapper, ns: string, target: map<string, string>, other: string, name: string)
    ensures Has(Updated(m, ns, target), other, name) <==> Has(m, other, name) || (other == ns && name in target)
    ensures DigestIn(Updated(m, ns, target), other, name) == if other == ns && name in target then target[name]
      else DigestIn(m, other, name)
  {
    EnsuredSame(m, ns, other, name);
  }

  // One update changes no other file, and records its own exactly when it is not
  // skipped or was recorded already.
  lemma FileUpdatedMeans(m: Mapper, d: FileData, onDisk: bool, ns: string, name: string)
    ensures var after := FileUpdated(m, d, onDisk).0;
      if ns == d.ns && name == d.name && !Skips(m, d, onDisk)
      then Has(after, ns, name) && DigestIn(after, ns, name) == d.digest
      else (Has(after, ns, name) <==> Has(m, ns, name)) && DigestIn(after, ns, name) == DigestIn(m, ns, name)
  {
    EnsuredSame(m, d.digest, ns, name);
    UpdatedDigest(Ensured(m, d.digest), d.ns, map[d.name := d.digest], ns, name);
  }

  lemma RecordedIff(m: Mapper, d: FileData, onDisk: bool)
    ensures DigestIn(FileUpdated(m, d, onDisk).0, d.ns, d.name) == d.digest
       <==> !onDisk || DigestIn(m, d.digest, d.name) != d.digest || DigestIn(m, d.ns, d.name) == d.digest
    ensures FileUpdated(m, d, onDisk).1 <==> !onDisk || DigestIn(m, d.digest, d.name) != d.digest
  {
    FileUpdatedMeans(m, d, onDisk, d.ns, d.name);
  }

  // A file that is recorded and on disk is announced again all the same, unless
  // the digest is found where it does not belong.
  lemma KnownFileAnnouncedIff(m: Mapper, d: FileData)
    requires DigestIn(m, d.ns, d.name) == d.digest
    ensures FileUpdated(m, d, true).1 <==> DigestIn(m, d.digest, d.name) != d.digest
  {
  }

  // A namespace named like a digest makes the update of another file vanish.
  lemma NamespaceLikeDigestLosesUpdate(digest: string, ns: string, name: string)
    requires ns != digest && digest != ""
    ensures var m := map[digest := map[name := digest]];
      !FileUpdated(m, FileData(ns, name, digest), true).1 &&
        !Has(FileUpdated(m, FileData(ns, name, digest), true).0, ns, name)
  {
  }

  // --- Comparing ---

  datatype Difference = Difference(diffed: map<string, string>, missed: map<string, string>)

  function Diffed(m: Mapper, ns: string, target: map<string, string>): Difference {
    Difference(map k | k in target && Has(m, ns, k) && m[ns][k] != target[k] :: m[ns][k],
               map k | k in target && !Has(m, ns, k) :: "")
  }

  // Nothing differs and nothing is missing exactly when every digest asked for is held.
  lemma NoDifferenceIff(m: Mapper, ns: string, target: map<string, string>)
    ensures Diffed(m, ns, target) == Difference(map[], map[])
       <==> forall k :: k in target ==> Has(m, ns, k) && m[ns][k] == target[k]
  {
    var d := Diffed(m, ns, target);
    if d == Difference(map[], map[]) {
      forall k | k in target ensures Has(m, ns, k) && m[ns][k] == target[k] {
        assert k !in d.missed && k !in d.diffed;
      }
    }
    if forall k :: k in target ==> Has(m, ns, k) && m[ns][k] == target[k] {
      assert d.diffed == map[] && d.missed == map[];
    }
  }

  // What differs is listed with the digest held, what is missing with none.
  lemma DiffedMeans(m: Mapper, ns: string, target: map<string, string>, name: string)
    ensures var d := Diffed(m, ns, target);
      && (name in d.diffed <==> name in target && Has(m, ns, name) && m[ns][name] != target[name])
      && (name in d.diffed ==> d.diffed[name] == m[ns][name])
      && (name in d.missed <==> name in target && !Has(m, ns, name))
      && (name in d.missed ==> d.missed[name] == "")
  {
  }

  // --- Unpacking ---

  datatype File = File(name: string, content: string)

  // The files of a package whose stored digest is not the recorded one, where a
  // later file of one name replaces an earlier one.
  function Changed(m: Mapper, ns: string, files: seq<File>, digestOf: string -> string): map<string, string> {
    if files == [] then map[]
    else
      var f := files[|files|-1];
      var rest := Changed(m, ns, files[..|files|-1], digestOf);
      if digestOf(f.content) != DigestIn(m, ns, f.name) then rest[f.name := digestOf(f.content)] else rest
  }

  ghost predicate DistinctNames(files: seq<File>) {
    forall i, j :: 0 <= i < j < |files| ==> files[i].name != files[j].name
  }

  predicate InFiles(files: seq<File>, name: string) { exists f :: f in files && f.name == name }

  // Whether and how a package file shows up among the changed ones.
  predicate ShowsUp(m: Mapper, ns: string, changed: map<string, string>, f: File, digest: string) {
    if digest != DigestIn(m, ns, f.name) then f.name in changed && changed[f.name] == digest else f.name !in changed
  }

  lemma {:induction false} ChangedNames(m: Mapper, ns: string, files: seq<File>, digestOf: string -> string,
      name: string)
    requires name in Changed(m, ns, files, digestOf)
    ensures InFiles(files, name)
    decreases |files|
  {
    var front, last := files[..|files|-1], files[|files|-1];
    assert last in files;
    if name != last.name { ChangedNames(m, ns, front, digestOf, name); }
  }

  lemma {:induction false} ChangedMeans(m: Mapper, ns: string, files: seq<File>, digestOf: string -> string, f: File)
    requires DistinctNames(files) && f in files
    ensures ShowsUp(m, ns, Changed(m, ns, files, digestOf), f, digestOf(f.content))
    decreases |files|
  {
    var front, last := files[..|files|-1], files[|files|-1];
    assert files == front + [last];
    if f in front {
      ChangedMeans(m, ns, front, digestOf, f);
    } else if f.name in Changed(m, ns, front, digestOf) {
      ChangedNames(m, ns, front, digestOf, f.name);
    }
  }

  // The k-th file is the last one of its name with another digest than recorded.
  predicate LastChange(m: Mapper, ns: string, files: seq<File>, digestOf: string -> string, k: nat) {
    && k < |files| && digestOf(files[k].content) != DigestIn(m, ns, files[k].name)
    && forall j :: k < j < |files| && files[j].name == files[k].name ==>
         digestOf(files[j].content) == DigestIn(m, ns, files[j].name)
  }

  // For any package, names repeated or not: the digest a changed name gets is that
  // of its last file with another digest than recorded, even if a still later one
  // brings the recorded content back.
  lemma {:induction false} ChangedIsLastChange(m: Mapper, ns: string, files: seq<File>, digestOf: string -> string,
      k: nat)
    requires LastChange(m, ns, files, digestOf, k)
    ensures var changed := Changed(m, ns, files, digestOf);
      files[k].name in changed && changed[files[k].name] == digestOf(files[k].content)
    decreases |files|
  {
    var front := files[..|files|-1];
    if k < |front| {
      assert files[|front|].name == files[k].name ==>
        digestOf(files[|front|].content) == DigestIn(m, ns, files[|front|].name);
      assert forall j :: 0 <= j < |front| ==> front[j] == files[j];
      assert LastChange(m, ns, front, digestOf, k);
      ChangedIsLastChange(m, ns, front, digestOf, k);
    }
    hide DigestIn;
  }

  // After unpacking, the mapper holds the digest of every file of the package
  // and exactly the changed ones are announced.
  lemma UnpackedIsRecorded(m: Mapper, ns: string, files: seq<File>, digestOf: string -> string, f: File)
    requires DistinctNames(files) && f in files
    ensures DigestIn(Updated(m, ns, Changed(m, ns, files, digestOf)), ns, f.name) == digestOf(f.content)
    ensures f.name in Changed(m, ns, files, digestOf) <==> DigestIn(m, ns, f.name) != digestOf(f.content)
  {
    ChangedMeans(m, ns, files, digestOf, f);
    UpdatedDigest(m, ns, Changed(m, ns, files, digestOf), ns, f.name);
  }

  // --- The mapper and the hub as objects ---

  // The mapper once some of the target's entries have been copied.
  function WithPart(m: Mapper, ns: string, target: map<string, string>, keys: set<string>): Mapper
    requires ns in m
  {
    m[ns := m[ns] + map k | k in target && k in keys :: target[k]]
  }

  lemma PartNone(m: Mapper, ns: string, target: map<string, string>)
    requires ns in m
    ensures target.Keys - target.Keys == {} && WithPart(m, ns, target, {}) == m
  {
    assert WithPart(m, ns, target, {})[ns] == m[ns];
  }

  lemma PartMore(m: Mapper, ns: string, target: map<string, string>, keys: set<string>, k: string)
    requires ns in m && k in target
    ensures var part := WithPart(m, ns, target, keys);
      ns in part && WithPart(m, ns, target, keys + {k}) == part[ns := part[ns][k := target[k]]]
  {
    assert m[ns] + (map j | j in target && j in keys + {k} :: target[j]) ==
      (m[ns] + map j | j in target && j in keys :: target[j])[k := target[k]];
  }

  lemma PartAll(m: Mapper, ns: string, target: map<string, string>)
    requires ns in m
    ensures WithPart(m, ns, target, target.Keys) == m[ns := m[ns] + target]
  {
    assert (map k | k in target && k in target.Keys :: target[k]) == target;
  }

  class FileMap {
    var content: Mapper

    constructor (content: Mapper)
      ensures this.content == content
    {
      this.content := content;
    }

    method EnsureNamespace(ns: string)
      modifies this
      ensures content == Ensured(old(content), ns)
    {
      if ns !in content { content := content[ns := map[]]; }
    }

    method Update(ns: string, target: map<string, string>)
      modifies this
      ensures content == Updated(old(content), ns, target)
    {
      EnsureNamespace(ns);
      ghost var all := content;
      var todo := target.Keys;
      PartNone(all, ns, target);
      while todo != {}
        invariant todo <= target.Keys && content == WithPart(all, ns, target, target.Keys - todo)
        decreases |todo|
      {
        hide WithPart;
        var k :| k in todo;
        PartMore(all, ns, target, target.Keys - todo, k);
        assert target.Keys - todo + {k} == target.Keys - (todo - {k});
        content := content[ns := content[ns][k := target[k]]];
        todo := todo - {k};
      }
      assert target.Keys - todo == target.Keys;
      PartAll(all, ns, target);
    }

    method Get(ns: string, name: string) returns (digest: string)
      modifies this
      ensures content == Ensured(old(content), ns) && digest == DigestIn(old(content), ns, name)
    {
      EnsureNamespace(ns);
      if name !in content[ns] { return ""; }
      return content[ns][name];
    }

    method Diff(ns: string, target: map<string, string>)
        returns (diffed: map<string, string>, missed: map<string, string>)
      modifies this
      ensures content == Ensured(old(content), ns)
      ensures Difference(diffed, missed) == Diffed(old(content), ns, target)
    {
      EnsureNamespace(ns);
      diffed, missed := map[], map[];
      var todo := target.Keys;
      while todo != {}
        invariant todo <= target.Keys
        invariant forall k :: k in diffed <==>
          k in target.Keys - todo && Has(content, ns, k) && content[ns][k] != target[k]
        invariant forall k :: k in diffed ==> diffed[k] == content[ns][k]
        invariant forall k :: k in missed <==> k in target.Keys - todo && !Has(content, ns, k)
        invariant forall k :: k in missed ==> missed[k] == ""
        decreases |todo|
      {
        var k :| k in todo;
        todo := todo - {k};
        if k !in content[ns] {
          missed := missed[k := ""];
        } else if content[ns][k] != target[k] {
          diffed := diffed[k := content[ns][k]];
        }
      }
    }
  }

  // Where the agent keeps its one copy of a file.
  function Place(ns: string, name: string): string { Paths.FilePath(Paths.CONFIG_TOP, "local", ns, name, "latest") }

  // The k-th file is the last one of its place.
  predicate LastOfPlace(ns: string, files: seq<File>, k: nat) {
    k < |files| && forall j :: k < j < |files| ==> Place(ns, files[j].name) != Place(ns, files[k].name)
  }

  predicate HoldsFile(disk: map<string, string>, ns: string, f: File) {
    Place(ns, f.name) in disk && disk[Place(ns, f.name)] == f.content
  }

  predicate SameAt(was: map<string, string>, now: map<string, string>, place: string) {
    (place in now <==> place in was) && (place in was ==> now[place] == was[place])
  }

  // The places of the files hold their contents, where a later file of a place
  // replaces an earlier one, and every other place is as it was.
  ghost predicate UnpackedOnto(was: map<string, string>, now: map<string, string>, ns: string, files: seq<File>) {
    && (forall k: nat :: LastOfPlace(ns, files, k) ==> HoldsFile(now, ns, files[k]))
    && (forall place :: (forall f :: f in files ==> Place(ns, f.name) != place) ==> SameAt(was, now, place))
  }

  lemma NothingUnpacked(disk: map<string, string>, ns: string)
    ensures UnpackedOnto(disk, disk, ns, [])
  {
  }

  lemma OneMoreUnpacked(was: map<string, string>, now: map<string, string>, ns: string, files: seq<File>, f: File)
    requires UnpackedOnto(was, now, ns, files)
    ensures UnpackedOnto(was, now[Place(ns, f.name) := f.content], ns, files + [f])
  {
    hide Place;
    var more := files + [f];
    var after := now[Place(ns, f.name) := f.content];
    forall k: nat | LastOfPlace(ns, more, k) ensures HoldsFile(after, ns, more[k]) { LastOfMore(ns, files, f, k); }
    assert forall g :: g in more <==> g in files || g == f;
    hide LastOfPlace, HoldsFile;
    forall place | forall g :: g in more ==> Place(ns, g.name) != place ensures SameAt(was, after, place) {
      assert SameAt(was, now, place);
    }
  }

  // The last file of a place is the new one, or it was the last and the new one
  // has another place.
  lemma LastOfMore(ns: string, files: seq<File>, f: File, k: nat)
    requires LastOfPlace(ns, files + [f], k)
    ensures k == |files| ==> (files + [f])[k] == f
    ensures k != |files| ==>
      LastOfPlace(ns, files, k) && (files + [f])[k] == files[k] && Place(ns, f.name) != Place(ns, files[k].name)
  {
    hide Place;
    var more := files + [f];
    assert more[|files|] == f && forall j :: 0 <= j < |files| ==> more[j] == files[j];
  }

  // With places of their own, after unpacking every file of the package is on
  // disk and recorded with the digest of what is there.
  lemma UnpackedIsOnDisk(m: Mapper, ns: string, files: seq<File>, digestOf: string -> string, f: File,
                         was: map<string, string>, now: map<string, string>)
    requires UnpackedOnto(was, now, ns, files) && f in files
    requires forall i, j :: 0 <= i < j < |files| ==> Place(ns, files[i].name) != Place(ns, files[j].name)
    ensures HoldsFile(now, ns, f)
    ensures DigestIn(Updated(m, ns, Changed(m, ns, files, digestOf)), ns, f.name) == digestOf(now[Place(ns, f.name)])
  {
    var k :| 0 <= k < |files| && files[k] == f;
    assert LastOfPlace(ns, files, k);
    forall i, j | 0 <= i < j < |files| ensures files[i].name != files[j].name {
      assert Place(ns, files[i].name) != Place(ns, files[j].name);
    }
    hide Place, Updated, Changed, DigestIn;
    UnpackedIsRecorded(m, ns, files, digestOf, f);
  }

  class UpdateHub {
    const fm: FileMap
    var disk: map<string, string>

    constructor (fm: FileMap)
      ensures this.fm == fm && disk == map[]
    {
      this.fm, disk := fm, map[];
    }

    method RunFileUpdated(d: FileData) returns (notified: bool)
      modifies fm
      ensures (fm.content, notified) == FileUpdated(old(fm.content), d, Place(d.ns, d.name) in disk)
    {
      var known := fm.Get(d.digest, d.name);
      if known == d.digest && Place(d.ns, d.name) in disk { return false; }
      fm.Update(d.ns, map[d.name := d.digest]);
      return true;
    }

    // fails: the number of files after which unpacking breaks off, if it does.
    // Then the files unpacked so far are on disk but nothing is recorded.
    method RunPackageUpdated(ns: string, files: seq<File>, digestOf: string -> string, fails: Option<nat>)
      returns (notified: Option<set<string>>)
      requires fails.Some? ==> fails.value <= |files|
      modifies this`disk, fm
      ensures notified.None? <==> fails.Some?
      ensures UnpackedOnto(old(disk), disk, ns, if fails.Some? then files[..fails.value] else files)
      ensures notified.None? ==>
        forall other, name :: DigestIn(fm.content, other, name) == DigestIn(old(fm.content), other, name)
      ensures notified.Some? ==>
        var changed := Changed(old(fm.content), ns, files, digestOf);
        notified.value == changed.Keys &&
        forall other, name ::
          DigestIn(fm.content, other, name) == DigestIn(Updated(old(fm.content), ns, changed), other, name)
    {
      hide UnpackedOnto, Place;
      var diffedFile: map<string, string> := map[];
      var count := if fails.Some? then fails.value else |files|;
      NothingUnpacked(disk, ns);
      for k := 0 to count
        invariant UnpackedOnto(old(disk), disk, ns, files[..k])
        invariant diffedFile == Changed(old(fm.content), ns, files[..k], digestOf)
        invariant forall other, name :: DigestIn(fm.content, other, name) == DigestIn(old(fm.content), other, name)
      {
        assert files[..k+1][..k] == files[..k] && files[..k+1] == files[..k] + [files[k]];
        var f := files[k];
        OneMoreUnpacked(old(disk), disk, ns, files[..k], f);
        disk := disk[Place(ns, f.name) := f.content];
        var dg := digestOf(f.content);
        var known := fm.Get(ns, f.name);
        if dg != known { diffedFile := diffedFile[f.name := dg]; }
      }
      if fails.Some? { return None; }
      assert files[..count] == files;
      forall other, name ensures
        DigestIn(Updated(fm.content, ns, diffedFile), other, name) ==
          DigestIn(Updated(old(fm.content), ns, diffedFile), other, name)
      {
        UpdatedDigest(fm.content, ns, diffedFile, other, name);
        UpdatedDigest(old(fm.content), ns, diffedFile, other, name);
      }
      fm.Update(ns, diffedFile);
      return Some(diffedFile.Keys);
    }
  }
}
