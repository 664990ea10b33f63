// The agent's own operations of the synchronisation: what it does with an
// answer, the scan of its disk, and the answers it gives to applications.
module SyncAgent {
  import opened Wrappers
  import opened FileMapper
  import opened Sync
  import opened ConfigModel
  import D = DownloadQueue

  function RequestsIn(ns: string, files: map<string, string>): set<D.Request> {
    set name | name in files :: D.FileRequest(ns, name, files[name])
  }

  lemma AddAllSnoc(d: D.Downloads, order: seq<D.Request>, req: D.Request)
    ensures AddAll(d, order + [req]) == D.Add(AddAll(d, order), req)
  {
    assert (order + [req])[..|order|] == order;
  }

  // Looking namespaces up creates them but changes no record.
  ghost predicate SameRecords(was: Mapper, now: Mapper) {
    forall ns, name :: (Has(now, ns, name) <==> Has(was, ns, name)) &&
      DigestIn(now, ns, name) == DigestIn(was, ns, name)
  }

  predicate Listed(lists: map<string, seq<string>>, ns: string, name: string) { ns in lists && name in lists[ns] }

  // The digest asked for is the one recorded.
  predicate Agrees(mapper: Mapper, infos: Mapper, ns: string, name: string) {
    Has(mapper, ns, name) && Has(infos, ns, name) && mapper[ns][name] == infos[ns][name]
  }

  // The lists once the namespaces in done have been compared.
  ghost predicate Compared(was: Mapper, infos: Mapper, done: set<string>, changed: map<string, seq<string>>,
      required: Mapper) {
    && (forall ns :: ns in changed || ns in required ==> ns in done)
    && (forall ns, name :: Listed(changed, ns, name) <==>
      ns in done && Has(infos, ns, name) && !Agrees(was, infos, ns, name))
    && (forall ns, name :: Has(required, ns, name) <==> ns in done && Has(infos, ns, name) && !Has(was, ns, name))
  }

  lemma NoneCompared(was: Mapper, infos: Mapper)
    ensures SameRecords(was, was) && Compared(was, infos, infos.Keys - infos.Keys, map[], map[])
  {
  }

  lemma AllCompared(was: Mapper, infos: Mapper, changed: map<string, seq<string>>, required: Mapper)
    requires Compared(was, infos, infos.Keys, changed, required)
    ensures forall ns, name :: Listed(changed, ns, name) <==> Has(infos, ns, name) && !Agrees(was, infos, ns, name)
    ensures forall ns, name :: Has(required, ns, name) <==> Has(infos, ns, name) && !Has(was, ns, name)
  {
    hide Agrees;
  }

  lemma StillSame(was: Mapper, before: Mapper, now: Mapper)
    requires SameRecords(was, before) && SameRecords(before, now)
    ensures SameRecords(was, now)
  {
  }

  lemma ComparedMore(was: Mapper, before: Mapper, infos: Mapper, done: set<string>, ns: string, changed: map<string,
      seq<string>>,
                     required: Mapper, names: seq<string>, missed: map<string, string>)
    requires Compared(was, infos, done, changed, required) && SameRecords(was, before) && ns in infos && ns !in done
    requires forall name :: name in names <==>
      name in infos[ns] && !(Has(before, ns, name) && before[ns][name] == infos[ns][name])
    requires forall name :: name in missed <==> name in infos[ns] && !Has(before, ns, name)
    ensures Compared(was, infos, done + {ns}, if names != [] then changed[ns := names] else changed,
                     if missed != map[] then required[ns := missed] else required)
  {
    var more := if names != [] then changed[ns := names] else changed;
    var all := if missed != map[] then required[ns := missed] else required;
    forall name ensures Listed(more, ns, name) <==> Has(infos, ns, name) && !Agrees(was, infos, ns, name) {
      assert DigestIn(before, ns, name) == DigestIn(was, ns, name) && (Has(before, ns, name) <==> Has(was, ns, name));
      assert Listed(more, ns, name) <==> name in names;
    }
    forall name ensures Has(all, ns, name) <==> Has(infos, ns, name) && !Has(was, ns, name) {
      assert Has(all, ns, name) <==> name in missed;
    }
    hide SameRecords, Agrees;
    assert forall other, name :: other != ns ==> (Listed(more, other, name) <==> Listed(changed, other, name));
    assert forall other, name :: other != ns ==> (Has(all, other, name) <==> Has(required, other, name));
  }

  method KeyList(m: map<string, string>) returns (names: seq<string>)
    ensures forall name :: name in names <==> name in m
    ensures |names| == |m|
  {
    names := [];
    var todo := m.Keys;
    while todo != {}
      invariant todo <= m.Keys && |names| + |todo| == |m.Keys|
      invariant forall name :: name in names <==> name in m.Keys - todo
      decreases |todo|
    {
      var name :| name in todo;
      todo := todo - {name};
      names := names + [name];
    }
  }

  class Node {
    const vm: D.VersionManager
    const fm: FileMap
    var disk: map<string, Entry>

    constructor (vm: D.VersionManager, fm: FileMap)
      ensures this.vm == vm && this.fm == fm && disk == map[]
    {
      this.vm, this.fm, disk := vm, fm, map[];
    }

    // The answer's files are queued and the reported files it does not name are
    // marked, in the order in which the maps happen to be gone through.
    method RefreshFromRemote(required: Mapper, data: Mapper) returns (ghost order: seq<D.Request>)
      modifies this`disk, vm`downloadQueue, vm`downloadMap
      ensures Covers(order, data) && vm.State() == AddAll(old(vm.State()), order)
      ensures disk == Marked(old(disk), required, data)
    {
      order := Enqueue(data);
      MarkMissing(required, data);
    }

    method Enqueue(data: Mapper) returns (ghost order: seq<D.Request>)
      modifies vm`downloadQueue, vm`downloadMap
      ensures Covers(order, data) && vm.State() == AddAll(old(vm.State()), order)
    {
      order := [];
      var todo := data.Keys;
      while todo != {}
        invariant todo <= data.Keys && vm.State() == AddAll(old(vm.State()), order)
        invariant forall r :: r in order <==>
          r.FileRequest? && r.ns in data.Keys - todo && r in RequestsIn(r.ns, data[r.ns])
        decreases |todo|
      {
        var ns :| ns in todo;
        todo := todo - {ns};
        order := EnqueueNs(ns, data[ns], order, old(vm.State()));
      }
    }

    method EnqueueNs(ns: string, files: map<string, string>, ghost before: seq<D.Request>, ghost d: D.Downloads)
        returns (ghost order: seq<D.Request>)
      requires vm.State() == AddAll(d, before)
      modifies vm`downloadQueue, vm`downloadMap
      ensures vm.State() == AddAll(d, order)
      ensures forall r :: r in order <==> r in before || r in RequestsIn(ns, files)
    {
      order := before;
      var todo := files.Keys;
      while todo != {}
        invariant todo <= files.Keys && vm.State() == AddAll(d, order)
        invariant forall r :: r in order <==>
          r in before || (r.FileRequest? && r.name in files.Keys - todo && r in RequestsIn(ns, files))
        decreases |todo|
      {
        var name :| name in todo;
        todo := todo - {name};
        var req := D.FileRequest(ns, name, files[name]);
        AddAllSnoc(d, order, req);
        vm.AddDownloadTask(req);
        order := order + [req];
      }
    }

    method MarkMissing(required: Mapper, data: Mapper)
      modifies this`disk
      ensures disk == Marked(old(disk), required, data)
    {
      hide *;
      ghost var was, marks := disk, {};
      NoMarks(was, required, data);
      var todo := required.Keys;
      assert required.Keys - todo == {};
      while todo != {}
        invariant todo <= required.Keys && disk == MarkPlaces(was, marks)
        invariant marks == UnnamedOf(required, data, required.Keys - todo)
        decreases |todo|
      {
        var ns :| ns in todo;
        MoreMarks(was, required, data, required.Keys - todo, ns, marks);
        marks := marks + UnnamedIn(ns, required[ns], data);
        MarkNs(ns, required[ns], data);
        assert required.Keys - todo + {ns} == required.Keys - (todo - {ns});
        todo := todo - {ns};
      }
      assert required.Keys - todo == required.Keys;
      AllMarks(required, data);
      MarkedIs(was, required, data);
    }

    method MarkNs(ns: string, files: map<string, string>, data: Mapper)
      modifies this`disk
      ensures disk == MarkPlaces(old(disk), UnnamedIn(ns, files, data))
    {
      hide *;
      ghost var was, marks := disk, {};
      NoMarksIn(was, ns, files, data);
      var todo := files.Keys;
      assert files.Keys - todo == {};
      while todo != {}
        invariant todo <= files.Keys && disk == MarkPlaces(was, marks)
        invariant marks == UnnamedAmong(ns, files.Keys - todo, data)
        decreases |todo|
      {
        var name :| name in todo;
        MoreMarksIn(was, ns, files.Keys - todo, name, data, marks);
        assert files.Keys - todo + {name} == files.Keys - (todo - {name});
        if !Has(data, ns, name) {
          disk := disk[Place(ns, name) := NotFound];
          marks := marks + {Place(ns, name)};
        }
        todo := todo - {name};
      }
      assert files.Keys - todo == files.Keys;
      AllMarksIn(ns, files, data);
    }

    // CmdFileRefreshHandler: an application reports the digests it has; the
    // answer lists the files whose recorded digest differs or that are not
    // recorded, and the latter are required from the manager.
    method FileRefresh(infos: Mapper) returns (changed: map<string, seq<string>>, required: Mapper)
      modifies fm
      ensures SameRecords(old(fm.content), fm.content)
      ensures forall ns, name :: Listed(changed, ns, name) <==>
        Has(infos, ns, name) && !Agrees(old(fm.content), infos, ns, name)
      ensures forall ns, name :: Has(required, ns, name) <==> Has(infos, ns, name) && !Has(old(fm.content), ns, name)
    {
      hide *;
      ghost var was := fm.content;
      changed, required := map[], map[];
      var todo := infos.Keys;
      NoneCompared(was, infos);
      while todo != {}
        invariant todo <= infos.Keys && SameRecords(was, fm.content)
        invariant Compared(was, infos, infos.Keys - todo, changed, required)
        decreases |todo|
      {
        var ns :| ns in todo;
        ghost var before := fm.content;
        var names, missed := Compare(ns, infos[ns]);
        StillSame(was, before, fm.content);
        ComparedMore(was, before, infos, infos.Keys - todo, ns, changed, required, names, missed);
        assert infos.Keys - todo + {ns} == infos.Keys - (todo - {ns});
        if names != [] { changed := changed[ns := names]; }
        if missed != map[] { required := required[ns := missed]; }
        todo := todo - {ns};
      }
      assert infos.Keys - todo == infos.Keys;
      AllCompared(was, infos, changed, required);
    }

    method Compare(ns: string, target: map<string, string>) returns (names: seq<string>, missed: map<string, string>)
      modifies fm
      ensures SameRecords(old(fm.content), fm.content)
      ensures forall name :: name in names <==>
        name in target && !(Has(old(fm.content), ns, name) && old(fm.content)[ns][name] == target[name])
      ensures forall name :: name in missed <==> name in target && !Has(old(fm.content), ns, name)
    {
      var diffed;
      diffed, missed := fm.Diff(ns, target);
      forall other, name ensures
        (Has(fm.content, other, name) <==> Has(old(fm.content), other, name)) &&
          DigestIn(fm.content, other, name) == DigestIn(old(fm.content), other, name)
      {
        EnsuredSame(old(fm.content), ns, other, name);
      }
      assert Difference(diffed, missed) == Diffed(old(fm.content), ns, target);
      var first := KeyList(diffed);
      var second := KeyList(missed);
      names := first + second;
    }

    // refreshFilemapperFromLocal: compares the mapper with the disk.
    method LocalScan() returns (local: Mapper)
      ensures Scanned(fm.content, disk, local)
    {
      local := map[];
      var todo := fm.content.Keys;
      while todo != {}
        invariant todo <= fm.content.Keys
        invariant forall ns :: ns in local ==> ns in fm.content.Keys - todo
        invariant forall ns, name :: Has(local, ns, name) <==> ns !in todo && Differs(fm.content, disk, ns, name)
        invariant forall ns, name :: Has(local, ns, name) ==> local[ns][name] == DigestOnDisk(disk, ns, name)
        decreases |todo|
      {
        var ns :| ns in todo;
        todo := todo - {ns};
        var found := ScanNs(ns);
        if found != map[] { local := local[ns := found]; }
        assert forall name :: Has(local, ns, name) <==> name in found;
      }
    }

    method ScanNs(ns: string) returns (found: map<string, string>)
      requires ns in fm.content
      ensures forall name :: name in found <==> Differs(fm.content, disk, ns, name)
      ensures forall name :: name in found ==> found[name] == DigestOnDisk(disk, ns, name)
    {
      found := map[];
      var todo := fm.content[ns].Keys;
      while todo != {}
        invariant todo <= fm.content[ns].Keys
        invariant forall name :: name in found <==> name !in todo && Differs(fm.content, disk, ns, name)
        invariant forall name :: name in found ==> found[name] == DigestOnDisk(disk, ns, name)
        decreases |todo|
      {
        var name :| name in todo;
        todo := todo - {name};
        var digest := DiskDigest(disk, ns, name);
        if digest != Some(fm.content[ns][name]) {
          found := found[name := match digest case Some(d) => d case None => ""];
        }
      }
    }
  }

  // --- Places marked so far ---

  function UnnamedIn(ns: string, files: map<string, string>, data: Mapper): set<string> {
    set name | name in files && !Has(data, ns, name) :: Place(ns, name)
  }

  function UnnamedAmong(ns: string, names: set<string>, data: Mapper): set<string> {
    set name | name in names && !Has(data, ns, name) :: Place(ns, name)
  }

  function UnnamedOf(required: Mapper, data: Mapper, done: set<string>): set<string> {
    set ns, name | ns in required && ns in done && name in required[ns] && !Has(data, ns, name) :: Place(ns, name)
  }

  lemma MarkMore(was: map<string, Entry>, a: set<string>, b: set<string>)
    ensures MarkPlaces(MarkPlaces(was, a), b) == MarkPlaces(was, a + b)
    ensures MarkPlaces(was, {}) == was
  {
  }

  lemma MarkOne(disk: map<string, Entry>, place: string)
    ensures disk[place := NotFound] == MarkPlaces(disk, {place})
  {
  }

  lemma NoMarks(was: map<string, Entry>, required: Mapper, data: Mapper)
    ensures MarkPlaces(was, {}) == was && UnnamedOf(required, data, {}) == {}
  {
    hide Place;
  }

  lemma NoMarksIn(was: map<string, Entry>, ns: string, files: map<string, string>, data: Mapper)
    ensures MarkPlaces(was, {}) == was && UnnamedAmong(ns, {}, data) == {}
  {
    hide Place;
  }

  lemma MoreMarks(was: map<string, Entry>, required: Mapper, data: Mapper, done: set<string>, ns: string,
      marks: set<string>)
    requires ns in required && marks == UnnamedOf(required, data, done)
    ensures MarkPlaces(MarkPlaces(was, marks), UnnamedIn(ns, required[ns], data)) ==
      MarkPlaces(was, marks + UnnamedIn(ns, required[ns], data))
    ensures UnnamedOf(required, data, done + {ns}) == marks + UnnamedIn(ns, required[ns], data)
  {
    hide Place, Has;
    MarkMore(was, marks, UnnamedIn(ns, required[ns], data));
    hide MarkPlaces;
  }

  lemma MoreMarksIn(was: map<string, Entry>, ns: string, names: set<string>, name: string, data: Mapper,
      marks: set<string>)
    requires marks == UnnamedAmong(ns, names, data)
    ensures MarkPlaces(was, marks)[Place(ns, name) := NotFound] == MarkPlaces(was, marks + {Place(ns, name)})
    ensures UnnamedAmong(ns, names + {name}, data) == if Has(data, ns, name) then marks else marks + {Place(ns, name)}
  {
    hide Place, Has;
    MarkOne(MarkPlaces(was, marks), Place(ns, name));
    MarkMore(was, marks, {Place(ns, name)});
    hide MarkPlaces;
  }

  lemma AllMarks(required: Mapper, data: Mapper)
    ensures UnnamedOf(required, data, required.Keys) == Unnamed(required, data)
  {
    hide Place, Has;
  }

  lemma AllMarksIn(ns: string, files: map<string, string>, data: Mapper)
    ensures UnnamedAmong(ns, files.Keys, data) == UnnamedIn(ns, files, data)
  {
    hide Place, Has;
  }

  lemma MarkedIs(was: map<string, Entry>, required: Mapper, data: Mapper)
    ensures Marked(was, required, data) == MarkPlaces(was, Unnamed(required, data))
  {
  }

  // --- Comparing the mapper with the disk ---

  function DigestOfEntry(e: Entry): string {
    match e case Copy(content) => DigestOf(content) case NotFound => DigestOf("")
  }

  function DiskDigest(disk: map<string, Entry>, ns: string, name: string): Option<string> {
    if Place(ns, name) in disk then Some(DigestOfEntry(disk[Place(ns, name)])) else None
  }

  // Which recorded files the disk lacks or has differently, with its digest.
  ghost predicate Scanned(mapper: Mapper, disk: map<string, Entry>, local: Mapper) {
    forall ns, name ::
      (Has(local, ns, name) <==> Differs(mapper, disk, ns, name)) &&
        (Has(local, ns, name) ==> local[ns][name] == DigestOnDisk(disk, ns, name))
  }

  predicate Differs(mapper: Mapper, disk: map<string, Entry>, ns: string, name: string) {
    Has(mapper, ns, name) && DiskDigest(disk, ns, name) != Some(mapper[ns][name])
  }

  function DigestOnDisk(disk: map<string, Entry>, ns: string, name: string): string {
    match DiskDigest(disk, ns, name) case Some(digest) => digest case None => ""
  }
}
