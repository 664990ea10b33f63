// What the two passes of a synchronisation leave on the agent's disk. A full
// comparison marks the files that are up to date as missing; the disk scan and
// the partial comparison after it are there to bring them back.
module SyncDisk {
  import opened FileMapper
  import opened SyncServer
  import opened Sync
  import opened SyncRuns
  import opened SyncAgent
  import opened SyncNames
  import opened Wrappers
  import opened ConfigModel
  import opened ConfigProofs
  import D = DownloadQueue
  import F = Folders
  import Paths

  // The disk holds the released content of the file.
  predicate Holds(a: Agent, f: Wanted) {
    var place := Place(f.ns, f.name);
    place in a.disk && a.disk[place].Copy? && DigestOf(a.disk[place].content) == f.digest
  }

  predicate OnTheWay(a: Agent, f: Wanted) { InFlight(a, ReqOf(f)) }

  // No other released file is kept at the same place.
  predicate Sole(catalogue: set<Wanted>, f: Wanted) {
    forall g :: g in catalogue && Place(g.ns, g.name) == Place(f.ns, f.name) ==> g == f
  }

  // A released file with a place and a key of its own.
  predicate Apart(m: Setting, f: Wanted) { f in m.catalogue && !Taken(m, f) && Sole(m.catalogue, f) }

  // Files of tidy names are kept at places of their own.
  lemma TidyIsSole(s: Server, site: string, f: Wanted)
    requires Inv(s) && f in Catalogue(s.db, site)
    requires forall g :: g in Catalogue(s.db, site) ==> F.Tidy(F.Key(site, g.ns, g.name))
    ensures Sole(Catalogue(s.db, site), f)
  {
    hide Inv, Catalogue, F.Tidy, Place;
    forall g | g in Catalogue(s.db, site) && Place(g.ns, g.name) == Place(f.ns, f.name) ensures g == f {
      SamePlaceSameFolder(f.ns, f.name, g.ns, g.name);
      TidyAnywhere(site, g.ns, g.name);
      TidyAnywhere(site, f.ns, f.name);
      SameTidyFile(s, site, f, g);
    }
  }

  lemma SamePlaceSameFolder(ns: string, name: string, ns': string, name': string)
    ensures Place(ns, name) == Place(ns', name') <==>
      F.FolderOf(Paths.CONFIG_TOP, F.Key("local", ns, name)) == F.FolderOf(Paths.CONFIG_TOP, F.Key("local", ns', name'))
  {
    hide F.Folder, Paths.FilePath;
    F.PathIff(Paths.CONFIG_TOP, "local", ns, name, "latest", Paths.CONFIG_TOP, "local", ns', name', "latest");
  }

  lemma TidyAnywhere(site: string, ns: string, name: string)
    requires F.Tidy(F.Key(site, ns, name))
    ensures F.Tidy(F.Key("local", ns, name))
  {
    hide Paths.Split, Paths.AllPlain, Paths.Stripped;
  }

  lemma SameTidyFile(s: Server, site: string, f: Wanted, g: Wanted)
    requires Inv(s) && f in Catalogue(s.db, site) && g in Catalogue(s.db, site)
    requires F.Tidy(F.Key(site, g.ns, g.name)) && F.Tidy(F.Key(site, f.ns, f.name))
    requires F.Tidy(F.Key("local", g.ns, g.name)) && F.Tidy(F.Key("local", f.ns, f.name))
    requires F.FolderOf(Paths.CONFIG_TOP, F.Key("local", g.ns, g.name)) ==
      F.FolderOf(Paths.CONFIG_TOP, F.Key("local", f.ns, f.name))
    ensures f == g
  {
    assert TablesOk(s.db);
    hide Inv, TablesOk, Catalogue, F.FolderOf, F.Tidy;
    F.TidyApartIff(F.Key("local", g.ns, g.name), F.Key("local", f.ns, f.name));
    F.TidyApartIff(F.Key(site, f.ns, f.name), F.Key(site, g.ns, g.name));
    if f != g { CatalogueApart(s.db, site, f, g); }
  }

  // --- Without further comparisons ---

  // Downloads, retries and updates.
  predicate Draining(e: Event) { Moves(e) || e.Applying? }

  ghost predicate Drain(m: Setting, a: Agent, events: seq<Event>, b: Agent) {
    Steps(m, a, events, b) && forall e :: e in events ==> Draining(e)
  }

  // The place of f is as it was.
  predicate SamePlace(a: Agent, b: Agent, f: Wanted) {
    var place := Place(f.ns, f.name);
    (place in b.disk <==> place in a.disk) && (place in a.disk ==> b.disk[place] == a.disk[place])
  }

  // What a download of f leaves on the disk: its content, or something else.
  predicate AsServed(m: Setting, a: Agent, f: Wanted) { Holds(a, f) <==> ServedOwn(m, f) }

  // A step without a comparison: what is on its way arrives, fails or is given
  // up; otherwise the place is left alone.
  ghost predicate DrainEffect(m: Setting, a: Agent, b: Agent, f: Wanted) {
    && (AsServed(m, a, f) || OnTheWay(a, f) || ReqOf(f) in a.lost ==>
          AsServed(m, b, f) || OnTheWay(b, f) || ReqOf(f) in b.lost)
    && (!OnTheWay(a, f) ==> !OnTheWay(b, f) && SamePlace(a, b, f))
    && (forall r :: r in a.lost ==> r in b.lost)
  }

  // A download that goes through affects the place of its own file only.
  lemma ReceiveDisk(m: Setting, a: Agent, g: Wanted, f: Wanted)
    requires g in m.catalogue && Apart(m, f)
    ensures ReqOf(g) == ReqOf(f) ==> (forall b: Agent :: b.disk == Receive(a, m, ReqOf(g)).disk ==> AsServed(m, b, f))
    ensures ReqOf(g) != ReqOf(f) ==> Place(g.ns, g.name) != Place(f.ns, f.name)
    ensures ReqOf(g) != ReqOf(f) ==> SamePlace(a, Receive(a, m, ReqOf(g)), f)
  {
    assert ReqOf(g) != ReqOf(f) ==> Place(g.ns, g.name) != Place(f.ns, f.name);
    hide Serve, Place, D.AddKey, DigestOf;
  }

  lemma SamePlaceHolds(a: Agent, b: Agent, f: Wanted)
    requires SamePlace(a, b, f)
    ensures Holds(a, f) <==> Holds(b, f)
  {
    hide Place, DigestOf;
  }

  lemma MoveDisk(m: Setting, a: Agent, e: Event, f: Wanted)
    requires Good(m) && Sound(m, a) && Possible(m, a, e) && Moves(e) && Apart(m, f)
    ensures DrainEffect(m, a, Step(m, a, e), f)
  {
    EffectHolds(m, a, e);
    MovesWhat(m, a, e);
    hide Good, Sound, Possible, Step, EffectOf, Effected;
    EffectDisk(m, a, Step(m, a, e), EffectOf(a, e), f);
  }

  lemma EffectDisk(m: Setting, a: Agent, b: Agent, eff: Effect, f: Wanted)
    requires Effected(m, a, b, eff) && Apart(m, f)
    ensures DrainEffect(m, a, b, f)
  {
    assert IsWanted(m, ReqOf(f));
    hide InFlight, CanBe, AsServed, SamePlace, Place, Receive, Sole, Taken;
    if eff.Delivers? {
      var g :| g in m.catalogue && !Taken(m, g) && ReqOf(g) == eff.req;
      hide IsWanted;
      ReceiveDisk(m, a, g, f);
      if eff.req != ReqOf(f) { SameDisk(m, a, b, Receive(a, m, eff.req), f); }
    } else {
      hide IsWanted;
      SamePlaceAgain(a, f);
      SameDisk(m, a, b, a, f);
    }
  }

  lemma SamePlaceAgain(a: Agent, f: Wanted)
    ensures SamePlace(a, a, f)
  {
  }

  lemma SameDisk(m: Setting, a: Agent, b: Agent, c: Agent, f: Wanted)
    requires SamePlace(a, c, f) && b.disk == c.disk
    ensures SamePlace(a, b, f) && (AsServed(m, a, f) <==> AsServed(m, b, f))
  {
    SamePlaceHolds(a, b, f) by { hide Place; }
    hide ServedOwn, Holds, Place;
  }

  lemma ApplyDisk(m: Setting, a: Agent, k: nat, f: Wanted)
    requires k < |a.updates|
    ensures DrainEffect(m, a, Apply(a, k), f)
  {
    var b := Apply(a, k);
    SamePlaceAgain(a, f);
    SameDisk(m, a, b, a, f);
    assert b.downloads == a.downloads && b.failures == a.failures && b.todo == a.todo && b.seen == a.seen &&
      b.kept == a.kept;
    assert b.lost == a.lost;
    hide Apply, AsServed, SamePlace;
  }

  lemma DrainStep(m: Setting, a: Agent, e: Event, f: Wanted)
    requires Good(m) && Sound(m, a) && Possible(m, a, e) && Draining(e) && Apart(m, f)
    ensures DrainEffect(m, a, Step(m, a, e), f)
  {
    hide Good, Sound, Apart, DrainEffect;
    if e.Applying? {
      hide Apply;
      ApplyDisk(m, a, e.k, f);
    } else {
      hide Possible, Step;
      MoveDisk(m, a, e, f);
    }
  }

  lemma EffectsCompose(m: Setting, a: Agent, p: Agent, b: Agent, f: Wanted)
    requires DrainEffect(m, a, p, f) && DrainEffect(m, p, b, f)
    ensures DrainEffect(m, a, b, f)
  {
    hide Place, OnTheWay, AsServed;
  }

  lemma NoEffect(m: Setting, a: Agent, f: Wanted)
    ensures DrainEffect(m, a, a, f)
  {
  }

  // The last step of a drain.
  lemma LastDrain(m: Setting, a: Agent, events: seq<Event>, b: Agent) returns (p: Agent, e: Event)
    requires Drain(m, a, events, b) && events != []
    ensures e == events[|events|-1] && Drain(m, a, events[..|events|-1], p) && Draining(e)
    ensures Possible(m, p, e) && b == Step(m, p, e)
  {
    var front := events[..|events|-1];
    e := events[|events|-1];
    assert e in events && forall x :: x in front ==> x in events;
    p :| Steps(m, a, front, p) && Possible(m, p, e) && b == Step(m, p, e);
  }

  lemma {:induction false} DrainRun(m: Setting, a: Agent, events: seq<Event>, b: Agent, f: Wanted)
    requires Good(m) && Sound(m, a) && Drain(m, a, events, b) && Apart(m, f)
    ensures Sound(m, b) && DrainEffect(m, a, b, f)
    decreases |events|
  {
    if events == [] {
      NoEffect(m, a, f);
    } else {
      hide *;
      var p, e := LastDrain(m, a, events, b);
      DrainRun(m, a, events[..|events|-1], p, f);
      StepKeeps(m, p, e);
      DrainStep(m, p, e, f);
      EffectsCompose(m, a, p, b, f);
    }
  }

  lemma IdleHasNone(b: Agent, f: Wanted)
    requires Idle(b)
    ensures !OnTheWay(b, f)
  {
  }

  // Once everything has been downloaded and nothing given up, the disk holds the
  // released content of f exactly if f was on its way and is served that, or was
  // not on its way and the disk held it already.
  lemma DrainedDiskIff(m: Setting, a: Agent, events: seq<Event>, b: Agent, f: Wanted)
    requires Good(m) && Sound(m, a) && Drain(m, a, events, b) && Apart(m, f) && Idle(b) && b.lost == {}
    ensures Holds(b, f) <==> if OnTheWay(a, f) then ServedOwn(m, f) else Holds(a, f)
  {
    DrainRun(m, a, events, b, f);
    IdleHasNone(b, f);
    if SamePlace(a, b, f) { SamePlaceHolds(a, b, f); }
    hide Good, Sound, Drain, SamePlace, Holds, ServedOwn, OnTheWay, Apart;
  }

  // --- The first pass ---

  // No file other than f is reported that is kept at f's place.
  predicate NoAlias(mapper: Mapper, f: Wanted) {
    forall ns, name :: ns in mapper && name in mapper[ns] && Place(ns, name) == Place(f.ns, f.name) ==>
      ns == f.ns && name == f.name
  }

  predicate MarkedMissing(a: Agent, f: Wanted) {
    Place(f.ns, f.name) in a.disk && a.disk[Place(f.ns, f.name)].NotFound?
  }

  // Right after the first answer, and while it is being worked off: f is on its
  // way, or there, or recorded and marked; or the disk does not hold it and never
  // will.
  predicate Underway(m: Setting, a: Agent, f: Wanted) {
    || OnTheWay(a, f)
    || if ServedOwn(m, f) then Holds(a, f) || (Recorded(a.mapper, f) && MarkedMissing(a, f)) else !Holds(a, f)
  }

  lemma FirstPass(m: Setting, start: Agent, e: Event, f: Wanted)
    requires Good(m) && Sound(m, start) && e.FullSync? && Possible(m, start, e) && Apart(m, f)
    ensures Sound(m, Step(m, start, e)) && Underway(m, Step(m, start, e), f)
    ensures Step(m, start, e).mapper == start.mapper
  {
    var a := Step(m, start, e);
    SyncMeans(m, start, e);
    if Recorded(start.mapper, f) {
      FullMarks(m, start, e, f);
      hide Place;
    } else {
      NamedIsQueued(m, start, e, f);
    }
    hide Good, Sound, Apart, Possible, Step, ServedOwn, Recorded;
  }

  // A full comparison marks what is up to date.
  lemma FullMarks(m: Setting, start: Agent, e: Event, f: Wanted)
    requires Good(m) && e.FullSync? && Possible(m, start, e) && f in m.catalogue && Recorded(start.mapper, f)
    ensures MarkedMissing(Step(m, start, e), f)
  {
    assert Has(start.mapper, f.ns, f.name) && !Has(e.answer, f.ns, f.name) by { assert f.digest != ""; }
    MarkedIfUnnamed(start.disk, start.mapper, e.answer, f.ns, f.name);
    hide Place, Marked, AddAll;
  }

  lemma MarkedIfUnnamed(disk: map<string, Entry>, required: Mapper, answer: Mapper, ns: string, name: string)
    requires Has(required, ns, name) && !Has(answer, ns, name)
    ensures Place(ns, name) in Marked(disk, required, answer) &&
      Marked(disk, required, answer)[Place(ns, name)] == NotFound
  {
    hide Place;
  }

  // The mapper changes only by recording released files, and a file that is
  // served its own bytes stays recorded.
  lemma MapperStep(m: Setting, a: Agent, e: Event, f: Wanted)
    requires Good(m) && Sound(m, a) && Possible(m, a, e) && Draining(e) && Apart(m, f)
    ensures Recorded(a.mapper, f) && ServedOwn(m, f) ==> Recorded(Step(m, a, e).mapper, f)
    ensures NoAlias(a.mapper, f) ==> NoAlias(Step(m, a, e).mapper, f)
  {
    if e.Applying? {
      hide ServedOwn;
      ApplyAlias(m, a, e.k, f);
    } else {
      EffectHolds(m, a, e);
      hide Good, Sound, Possible, Step, InFlight, NoAlias, Recorded;
    }
  }

  lemma ApplyAlias(m: Setting, a: Agent, k: nat, f: Wanted)
    requires Good(m) && Sound(m, a) && k < |a.updates| && Apart(m, f)
    ensures Recorded(a.mapper, f) && ServedOwn(m, f) ==> Recorded(Apply(a, k).mapper, f)
    ensures NoAlias(a.mapper, f) ==> NoAlias(Apply(a, k).mapper, f)
  {
    var g := AppliedFile(m, a, k);
    var d, now := a.updates[k], Apply(a, k).mapper;
    forall ns, name
      ensures Has(now, ns, name) ==> Has(a.mapper, ns, name) || SameFile(g, ns, name)
      ensures DigestIn(now, ns, name) == DigestIn(a.mapper, ns, name) ||
        (SameFile(g, ns, name) && DigestIn(now, ns, name) == d.digest)
    {
      FileUpdatedMeans(a.mapper, d, true, ns, name);
    }
    assert ServedOwn(m, f) ==> Yields(m, f) == Some(f.digest);
    assert SameFile(g, f.ns, f.name) ==> g == f;
    hide FileUpdated, DigestIn, Place, D.KeysApart, Apply, Yields, ServedOwn, Sound;
    if NoAlias(a.mapper, f) {
      forall ns, name | ns in now && name in now[ns] && Place(ns, name) == Place(f.ns, f.name)
        ensures ns == f.ns && name == f.name
      {
        assert Has(now, ns, name);
        if !SameFile(g, ns, name) { assert Has(a.mapper, ns, name); }
      }
    }
  }

  lemma StaysUnderway(m: Setting, a: Agent, b: Agent, f: Wanted)
    requires Underway(m, a, f) && DrainEffect(m, a, b, f)
    requires Recorded(a.mapper, f) && ServedOwn(m, f) ==> Recorded(b.mapper, f)
    ensures Underway(m, b, f) || ReqOf(f) in b.lost
  {
    if SamePlace(a, b, f) { SamePlaceHolds(a, b, f); }
    hide Place, ServedOwn, OnTheWay, Recorded, Holds;
  }

  lemma {:induction false} DrainUnderway(m: Setting, a: Agent, events: seq<Event>, b: Agent, f: Wanted)
    requires Good(m) && Sound(m, a) && Drain(m, a, events, b) && Apart(m, f)
    requires Underway(m, a, f) && NoAlias(a.mapper, f)
    ensures Sound(m, b) && (Underway(m, b, f) || ReqOf(f) in b.lost) && NoAlias(b.mapper, f)
    decreases |events|
  {
    DrainRun(m, a, events, b, f);
    if events != [] {
      hide *;
      var p, e := LastDrain(m, a, events, b);
      DrainUnderway(m, a, events[..|events|-1], p, f);
      MapperStep(m, p, e, f);
      DrainStep(m, p, e, f);
      if Underway(m, p, f) { StaysUnderway(m, p, b, f); } else { LostFurther(m, p, b, f); }
    }
  }

  lemma LostFurther(m: Setting, a: Agent, b: Agent, f: Wanted)
    requires DrainEffect(m, a, b, f) && ReqOf(f) in a.lost
    ensures ReqOf(f) in b.lost
  {
    hide AsServed, OnTheWay, SamePlace;
  }

  // --- The second pass ---

  // The one case in which the second pass loses a file that is served: it has been
  // downloaded, but its update has not been applied to the older record when the
  // disk is scanned. Then the scan reports the new digest, the manager finds
  // nothing to name, and the agent marks the file as missing.
  predicate CaughtBetween(a: Agent, f: Wanted) { Holds(a, f) && Has(a.mapper, f.ns, f.name) && !Recorded(a.mapper, f) }

  ghost predicate Scans(a: Agent, e: Event) { e.PartialSync? && Scanned(a.mapper, a.disk, e.required) }

  lemma NamedInOrder(m: Setting, a: Agent, e: Event, f: Wanted)
    requires Good(m) && e.PartialSync? && Possible(m, a, e) && f in m.catalogue
    ensures Has(e.answer, f.ns, f.name) <==> ReqOf(f) in e.order
    ensures Has(e.answer, f.ns, f.name) <==> Has(e.required, f.ns, f.name) && e.required[f.ns][f.name] != f.digest
  {
    hide D.KeysApart;
    if Has(e.answer, f.ns, f.name) {
      assert Has(e.required, f.ns, f.name);
      assert D.FileRequest(f.ns, f.name, e.answer[f.ns][f.name]) in e.order;
    }
  }

  lemma SecondQueues(m: Setting, a: Agent, e: Event, f: Wanted)
    requires Good(m) && Sound(m, a) && Possible(m, a, e) && e.PartialSync? && Apart(m, f)
    ensures OnTheWay(Step(m, a, e), f) <==> OnTheWay(a, f) || Has(e.answer, f.ns, f.name)
    ensures ReqOf(f) in Step(m, a, e).downloads.queue <==> ReqOf(f) in a.downloads.queue || Has(e.answer, f.ns, f.name)
  {
    SyncMeans(m, a, e);
    NamedInOrder(m, a, e, f);
    hide Good, Sound, Possible, Step, D.AddKey, D.ArgsKey, InTasks, Sole;
  }

  lemma SecondPass(m: Setting, a: Agent, e: Event, f: Wanted)
    requires Good(m) && Sound(m, a) && Possible(m, a, e) && Scans(a, e) && Apart(m, f)
    requires f.digest != DigestOf("") && Underway(m, a, f) && NoAlias(a.mapper, f)
    ensures var b := Step(m, a, e);
      if ServedOwn(m, f) then OnTheWay(b, f) || Holds(b, f) <==> OnTheWay(a, f) || !CaughtBetween(a, f)
      else OnTheWay(b, f) || !Holds(b, f)
  {
    SecondQueues(m, a, e, f);
    NamedInOrder(m, a, e, f);
    ScanOf(a, e.required, f);
    PlaceAfter(a, e.required, e.answer, f);
    assert f.digest != "" && Step(m, a, e).disk == Marked(a.disk, e.required, e.answer);
    hide Good, Sound, Possible, Step, OnTheWay, Place, Scanned, Marked, ServedOwn, DigestOf, Apart, NoAlias;
  }

  lemma ScanOf(a: Agent, local: Mapper, f: Wanted)
    requires Scanned(a.mapper, a.disk, local) && f.digest != DigestOf("")
    ensures Holds(a, f) ==> (Has(local, f.ns, f.name) <==> Has(a.mapper, f.ns, f.name) && !Recorded(a.mapper, f))
    ensures Holds(a, f) && Has(local, f.ns, f.name) ==> local[f.ns][f.name] == f.digest
    ensures Recorded(a.mapper, f) && f.digest != "" && MarkedMissing(a, f) ==>
      Has(local, f.ns, f.name) && local[f.ns][f.name] == DigestOf("")
  {
    hide Place;
  }

  // The mark falls on f's place exactly if f itself is reported and not named.
  lemma PlaceAfter(a: Agent, local: Mapper, diff: Mapper, f: Wanted)
    requires Scanned(a.mapper, a.disk, local) && NoAlias(a.mapper, f)
    ensures var (place, after) := (Place(f.ns, f.name), Marked(a.disk, local, diff));
      if Has(local, f.ns, f.name) && !Has(diff, f.ns, f.name) then place in after && after[place] == NotFound
      else (place in after <==> place in a.disk) && (place in a.disk ==> after[place] == a.disk[place])
  {
    hide Place;
    var place := Place(f.ns, f.name);
    forall ns, name | ns in local && name in local[ns] && Place(ns, name) == place
      ensures ns == f.ns && name == f.name
    {
      assert Has(local, ns, name) && Differs(a.mapper, a.disk, ns, name);
    }
    assert place in Unnamed(local, diff) <==> Has(local, f.ns, f.name) && !Has(diff, f.ns, f.name);
  }


  lemma ScannedMark(a: Agent, local: Mapper, f: Wanted)
    requires Scanned(a.mapper, a.disk, local) && Has(a.mapper, f.ns, f.name) && Recorded(a.mapper, f)
    requires Place(f.ns, f.name) in a.disk && a.disk[Place(f.ns, f.name)] == NotFound
    ensures Has(local, f.ns, f.name) <==> f.digest != DigestOf("")
    ensures Has(local, f.ns, f.name) ==> local[f.ns][f.name] == DigestOf("")
  {
    hide Place;
  }

  // --- Both passes ---

  lemma LostStays(m: Setting, a: Agent, b: Agent, f: Wanted)
    requires DrainEffect(m, a, b, f) && b.lost == {}
    ensures ReqOf(f) !in a.lost
  {
    hide AsServed, OnTheWay, SamePlace;
  }

  // After both passes, however downloads, retries and updates fall between and
  // after them, once all is done and nothing was given up: the disk holds the
  // released content of a non-empty file if and only if the file is served that
  // content and, when the disk was scanned, was still on its way or was not
  // caught between download and update.
  lemma BothPassesIff(m: Setting, start: Agent, first: Event, events: seq<Event>, a: Agent,
                      second: Event, events2: seq<Event>, b: Agent, f: Wanted)
    requires Good(m) && Sound(m, start) && Apart(m, f) && f.digest != DigestOf("") && NoAlias(start.mapper, f)
    requires first.FullSync? && Possible(m, start, first) && Drain(m, Step(m, start, first), events, a)
    requires Scans(a, second) && Possible(m, a, second) && Drain(m, Step(m, a, second), events2, b)
    requires Idle(b) && b.lost == {}
    ensures Holds(b, f) <==> ServedOwn(m, f) && (OnTheWay(a, f) || !CaughtBetween(a, f))
  {
    var a1, a2 := Step(m, start, first), Step(m, a, second);
    assert second.PartialSync?;
    hide *;
    FirstPass(m, start, first, f);
    DrainUnderway(m, a1, events, a, f);
    SyncMeans(m, a, second);
    DrainRun(m, a2, events2, b, f);
    LostStays(m, a2, b, f);
    SecondPass(m, a, second, f);
    DrainedDiskIff(m, a2, events2, b, f);
  }

  lemma MovesAreDraining(events: seq<Event>)
    requires forall e :: e in events ==> Moves(e)
    ensures forall e :: e in events ==> Draining(e)
  {
  }

  // A file that the mapper holds with an older digest can be caught: all downloads
  // are tried before the scan and no update has been applied yet. Only refused
  // downloads are given up.
  lemma CaughtCanHappen(m: Setting, start: Agent, first: Event, f: Wanted) returns (events: seq<Event>, a: Agent)
    requires Good(m) && Sound(m, start) && first.FullSync? && Possible(m, start, first)
    requires Apart(m, f) && ServedOwn(m, f) && Has(start.mapper, f.ns, f.name) && !Recorded(start.mapper, f)
    requires ReqOf(f) !in start.lost
    ensures Drain(m, Step(m, start, first), events, a) && CaughtBetween(a, f) && !OnTheWay(a, f)
    ensures forall r :: r in a.lost ==> r in start.lost || IsRefused(m, r)
  {
    var a1 := Step(m, start, first);
    SyncMeans(m, start, first);
    NamedIsQueued(m, start, first, f);
    NoSteps(m, a1);
    hide Good, Sound, Steps, Possible, Step, Recorded, Coming, IsRefused, ServedOwn, IsWanted, Sole, Has, Holds;
    events, a := SettleDownloads(m, a1, [], a1);
    assert [] + events == events;
    MovesAreDraining(events);
    DrainRun(m, a1, events, a, f);
    NotOnTheWay(a, f);
    NotGivenUp(m, a, f);
    hide OnTheWay, SamePlace, Downloaded;
  }

  lemma NotOnTheWay(a: Agent, f: Wanted)
    requires Downloaded(a)
    ensures !OnTheWay(a, f)
  {
  }

  lemma NotGivenUp(m: Setting, a: Agent, f: Wanted)
    requires ServedOwn(m, f)
    ensures !IsRefused(m, ReqOf(f))
  {
    hide Serve;
  }

  // A file that was up to date is marked by the first answer, and queued again by
  // the second exactly when it is not empty: an empty file looks like the mark
  // and keeps it.
  lemma MarkRepairedIffNotEmpty(m: Setting, start: Agent, first: Event, second: Event, f: Wanted)
    requires Good(m) && Sound(m, start) && start.downloads.queue == [] && Apart(m, f) && Recorded(start.mapper, f)
    requires first.FullSync? && Possible(m, start, first)
    requires Scans(Step(m, start, first), second) && Possible(m, Step(m, start, first), second)
    ensures MarkedMissing(Step(m, start, first), f)
    ensures ReqOf(f) in Step(m, Step(m, start, first), second).downloads.queue <==> f.digest != DigestOf("")
  {
    var a := Step(m, start, first);
    assert Has(start.mapper, f.ns, f.name) && f.digest != "" && f in m.catalogue;
    assert second.PartialSync? && Scanned(a.mapper, a.disk, second.required);
    NotNamed(m, start, first, f);
    FullMarks(m, start, first, f);
    SyncMeans(m, start, first);
    hide Good, Sound, Possible, Step, Recorded, Scanned, Place, DigestOf, Has, Apart;
    SecondQueues(m, a, second, f);
    NamedInOrder(m, a, second, f);
    ScannedMark(a, second.required, f);
  }

  lemma NotNamed(m: Setting, a: Agent, e: Event, f: Wanted)
    requires Good(m) && e.FullSync? && Possible(m, a, e) && f in m.catalogue && Recorded(a.mapper, f)
    ensures ReqOf(f) !in e.order
  {
    assert !Has(e.answer, f.ns, f.name);
  }
}
