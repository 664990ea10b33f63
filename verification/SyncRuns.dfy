// What runs there are: each can be brought to an end, and a file that is not
// safe is missed by one of them.
module SyncRuns {
  import opened Wrappers
  import opened FileMapper
  import opened SyncServer
  import opened Sync
  import D = DownloadQueue

  lemma StepsSnoc(m: Setting, start: Agent, events: seq<Event>, a: Agent, e: Event)
    requires Steps(m, start, events, a) && Possible(m, a, e)
    ensures Steps(m, start, events + [e], Step(m, a, e))
  {
    hide Possible, Step;
    var all := events + [e];
    assert all[..|all|-1] == events && all[|all|-1] == e;
    var (front, last) := (all[..|all|-1], all[|all|-1]);
    assert Steps(m, start, front, a) && Possible(m, a, last);
    assert exists p :: Steps(m, start, front, p) && Possible(m, p, last) && Step(m, a, e) == Step(m, p, last);
  }

  lemma ConsEvent(events: seq<Event>, e: Event, rest: seq<Event>)
    ensures events + [e] + rest == events + ([e] + rest) && events + [] == events
  {
  }

  // --- Downloads come to an end ---

  predicate Downloaded(a: Agent) { a.downloads.queue == [] && a.failures == [] && a.todo == [] && a.kept == [] }

  // Every failed attempt brings a task closer to being given up.
  function Chances(t: D.Task): nat { if t.failed <= D.MAX_FAILED then D.MAX_FAILED + 2 - t.failed else 1 }

  function Weight(tasks: seq<D.Task>): nat {
    if tasks == [] then 0 else Weight(tasks[..|tasks|-1]) + Chances(tasks[|tasks|-1])
  }

  lemma {:induction false} WeightAdds(a: seq<D.Task>, b: seq<D.Task>)
    ensures Weight(a + b) == Weight(a) + Weight(b)
    decreases |b|
  {
    if b == [] {
      assert a + b == a;
    } else {
      assert (a + b)[..|a + b|-1] == a + b[..|b|-1];
      WeightAdds(a, b[..|b|-1]);
    }
  }

  lemma WeightFirst(tasks: seq<D.Task>)
    requires tasks != []
    ensures Weight(tasks) == Chances(tasks[0]) + Weight(tasks[1..])
  {
    assert tasks == [tasks[0]] + tasks[1..];
    WeightAdds([tasks[0]], tasks[1..]);
    assert [tasks[0]][..0] == [];
  }

  function Total(a: Agent): nat { Weight(a.failures) + Weight(a.todo) + Weight(a.kept) }

  function Phase(a: Agent): nat { if a.todo != [] then 0 else if a.kept != [] || a.seen != {} then 2 else 1 }

  // Closer to the end of all downloads.
  ghost predicate Closer(b: Agent, a: Agent) {
    || |b.downloads.queue| < |a.downloads.queue|
    || (b.downloads == a.downloads && (Total(b) < Total(a) || (Total(b) == Total(a) && Phase(b) < Phase(a))))
  }

  predicate IsRefused(m: Setting, req: D.Request) { req.FileRequest? && Serve(m, req).Refused? }

  lemma NextDownload(m: Setting, a: Agent) returns (e: Event)
    requires Sound(m, a) && a.downloads.queue != []
    ensures Moves(e) && Possible(m, a, e) && Closer(Step(m, a, e), a)
    ensures EffectOf(a, e).Fails? ==> IsRefused(m, EffectOf(a, e).req)
  {
    var req := a.downloads.queue[0];
    QueuedIsWanted(m, a, req);
    WantedIsFile(m, req);
    e := Downloading(!Serve(m, req).Refused?);
    ReceiveFrame(a.(downloads := D.Pop(a.downloads)), m, req);
    hide Sound, Serve, Receive, IsWanted, Total, Phase;
  }

  lemma NextRetry(m: Setting, a: Agent) returns (e: Event)
    requires Sound(m, a) && a.todo != []
    ensures Moves(e) && Possible(m, a, e) && Closer(Step(m, a, e), a)
    ensures EffectOf(a, e).Fails? ==> IsRefused(m, EffectOf(a, e).req)
  {
    var t := a.todo[0];
    assert IsWanted(m, t.req);
    WantedIsFile(m, t.req);
    hide Sound, Serve, Receive, IsWanted, Retry, D.ArgsKey, LookedAt;
    var ok := !Serve(m, t.req).Refused?;
    e := Retrying(ok);
    RetryLooks(m, a, ok);
    LookedAtLess(a, Retry(a, m, ok), D.ArgsKey(t.req) !in a.seen && !ok && t.failed + 1 <= D.MAX_FAILED);
  }

  lemma LookedAtLess(a: Agent, b: Agent, keeps: bool)
    requires LookedAt(a, b, keeps) && (keeps ==> a.todo[0].failed + 1 <= D.MAX_FAILED)
    ensures Closer(b, a)
  {
    hide D.ArgsKey, Phase;
    var again := a.todo[0].(failed := a.todo[0].failed + 1);
    WeightFirst(a.todo);
    WeightAdds(a.kept, [again]);
    assert [again][..0] == [] && a.kept + [] == a.kept;
  }

  lemma NextMove(m: Setting, a: Agent) returns (e: Event)
    requires Sound(m, a) && !Downloaded(a)
    ensures Moves(e) && Possible(m, a, e) && Closer(Step(m, a, e), a)
    ensures EffectOf(a, e).Fails? ==> IsRefused(m, EffectOf(a, e).req)
  {
    if a.downloads.queue != [] {
      hide *;
      e := NextDownload(m, a);
    } else if a.todo != [] {
      hide *;
      e := NextRetry(m, a);
    } else {
      hide Sound, D.ArgsKey;
      e := if a.kept != [] || a.seen != {} then RetryEnds else RetryStarts;
      WeightAdds(a.failures, a.kept);
    }
  }

  // --- What is coming arrives ---

  predicate Ready(m: Setting, a: Agent, h: Wanted) { Yields(m, h).Some? && UpdateOf(m, h) in a.updates }

  predicate Coming(m: Setting, a: Agent, h: Wanted) { Yields(m, h).Some? && (InFlight(a, ReqOf(h)) || Ready(m, a, h)) }

  // b follows a without an update applied; whatever was given up had been refused.
  ghost predicate Continues(m: Setting, a: Agent, b: Agent) {
    && b.mapper == a.mapper
    && (forall d :: d in a.updates ==> d in b.updates)
    && (forall h :: h in m.catalogue && Coming(m, a, h) ==> Coming(m, b, h))
    && (forall r :: r in b.lost ==> r in a.lost || (IsWanted(m, r) && IsRefused(m, r)))
  }

  lemma YieldIsFound(m: Setting, h: Wanted)
    requires h in m.catalogue && Yields(m, h).Some?
    ensures IsWanted(m, ReqOf(h)) && !IsRefused(m, ReqOf(h)) && !Taken(m, h)
  {
  }

  lemma MoveContinues(m: Setting, a: Agent, e: Event)
    requires Good(m) && Sound(m, a) && Possible(m, a, e) && Moves(e)
    requires EffectOf(a, e).Fails? ==> IsRefused(m, EffectOf(a, e).req)
    ensures Continues(m, a, Step(m, a, e))
  {
    MoveKeeps(m, a, e);
    EffectHolds(m, a, e);
    MovesWhat(m, a, e);
    var b, eff := Step(m, a, e), EffectOf(a, e);
    hide Good, Sound, Possible, Step, InFlight, IsRefused, CanBe;
    forall h | h in m.catalogue && Coming(m, a, h) ensures Coming(m, b, h) {
      YieldIsFound(m, h);
      if eff.Delivers? && eff.req == ReqOf(h) { ReceiveMeans(m, a, h); }
    }
    hide IsWanted, Yields, Receive;
  }

  lemma ContinuesFurther(m: Setting, a: Agent, p: Agent, b: Agent)
    requires Continues(m, a, p) && Continues(m, p, b)
    ensures Continues(m, a, b)
  {
    hide Coming, IsWanted, IsRefused;
  }

  lemma AllArrived(m: Setting, a: Agent, b: Agent)
    requires Continues(m, a, b) && Downloaded(b)
    ensures forall h :: h in m.catalogue && Coming(m, a, h) ==> Ready(m, b, h)
  {
    hide Yields, IsWanted, IsRefused;
  }

  // Whatever is on its way can be downloaded before anything is applied; only
  // refused requests are given up.
  lemma {:induction false} SettleDownloads(m: Setting, start: Agent, events: seq<Event>, a: Agent)
    returns (more: seq<Event>, b: Agent)
    requires Good(m) && Sound(m, a) && Steps(m, start, events, a)
    ensures Steps(m, start, events + more, b) && Sound(m, b) && Downloaded(b) && Continues(m, a, b)
    ensures forall e :: e in more ==> Moves(e)
    decreases |a.downloads.queue|, Total(a), Phase(a)
  {
    hide *;
    if Downloaded(a) {
      more, b := [], a;
      ConsEvent(events, RetryStarts, []);
      Stays(m, a);
    } else {
      var e := NextMove(m, a);
      MovesWhat(m, a, e);
      MoveContinues(m, a, e);
      MoveKeeps(m, a, e);
      StepsSnoc(m, start, events, a, e);
      var p := Step(m, a, e);
      CloserIs(p, a);
      var rest;
      rest, b := SettleDownloads(m, start, events + [e], p);
      ContinuesFurther(m, a, p, b);
      more := [e] + rest;
      ConsEvent(events, e, rest);
    }
  }

  lemma Stays(m: Setting, a: Agent)
    ensures Continues(m, a, a)
  {
  }

  lemma CloserIs(b: Agent, a: Agent)
    requires Closer(b, a)
    ensures |b.downloads.queue| < |a.downloads.queue| || (|b.downloads.queue| == |a.downloads.queue| &&
      (Total(b) < Total(a) || (Total(b) == Total(a) && Phase(b) < Phase(a))))
  {
  }

  // --- Applying what has arrived ---

  // Neither recorded nor about to be.
  predicate Doomed(m: Setting, a: Agent, f: Wanted) {
    !Recorded(a.mapper, f) && (Yields(m, f) != Some(f.digest) || DataOf(f) !in a.updates)
  }

  lemma ApplyFrame(m: Setting, a: Agent, k: nat)
    requires k < |a.updates|
    ensures Possible(m, a, Applying(k)) && Step(m, a, Applying(k)) == Apply(a, k)
    ensures var b := Apply(a, k);
      |b.updates| < |a.updates| && b.lost == a.lost && (Downloaded(a) ==> Downloaded(b))
    ensures forall d :: d in Apply(a, k).updates ==> d in a.updates
  {
    hide FileUpdated;
  }

  lemma StaysDoomed(m: Setting, a: Agent, f: Wanted)
    requires Good(m) && Sound(m, a) && a.updates != [] && f in m.catalogue && Doomed(m, a, f)
    ensures Doomed(m, Apply(a, 0), f)
  {
    var g := AppliedFile(m, a, 0);
    ApplyFrame(m, a, 0);
    FileUpdatedMeans(a.mapper, a.updates[0], true, f.ns, f.name);
    assert SameFile(g, f.ns, f.name) ==> g == f;
    assert a.updates[0] in a.updates;
    hide FileUpdated, DigestIn, Yields, D.KeysApart, Sound;
  }

  // Without an update for f on its way, the rest of the run does not record f.
  lemma {:induction false} FinishWithout(m: Setting, start: Agent, events: seq<Event>, a: Agent, f: Wanted)
    returns (more: seq<Event>, b: Agent)
    requires Good(m) && Sound(m, a) && Steps(m, start, events, a) && Downloaded(a)
    requires f in m.catalogue && Doomed(m, a, f)
    ensures Steps(m, start, events + more, b) && Sound(m, b) && Idle(b) && b.lost == a.lost && !Recorded(b.mapper, f)
    decreases |a.updates|
  {
    if a.updates == [] {
      more, b := [], a;
      ConsEvent(events, RetryStarts, []);
    } else {
      hide *;
      ApplyFrame(m, a, 0);
      ApplySound(m, a, 0);
      StaysDoomed(m, a, f);
      StepsSnoc(m, start, events, a, Applying(0));
      var rest;
      rest, b := FinishWithout(m, start, events + [Applying(0)], Apply(a, 0), f);
      more := [Applying(0)] + rest;
      ConsEvent(events, Applying(0), rest);
    }
  }

  lemma {:induction false} ApplyAll(m: Setting, start: Agent, events: seq<Event>, a: Agent)
    returns (more: seq<Event>, b: Agent)
    requires Steps(m, start, events, a) && Downloaded(a)
    ensures Steps(m, start, events + more, b) && Idle(b) && b.lost == a.lost
    decreases |a.updates|
  {
    if a.updates == [] {
      more, b := [], a;
      ConsEvent(events, RetryStarts, []);
    } else {
      hide *;
      ApplyFrame(m, a, 0);
      StepsSnoc(m, start, events, a, Applying(0));
      var rest;
      rest, b := ApplyAll(m, start, events + [Applying(0)], Apply(a, 0));
      more := [Applying(0)] + rest;
      ConsEvent(events, Applying(0), rest);
    }
  }

  lemma Regrouped(a: seq<Event>, b: seq<Event>, c: seq<Event>, d: seq<Event>)
    ensures a + b + c + d == a + (b + c + d)
  {
  }

  // From wherever a run has come, some continuation ends idle and gives up
  // nothing but requests that are refused.
  lemma CanSettle(m: Setting, start: Agent, events: seq<Event>, a: Agent) returns (more: seq<Event>, b: Agent)
    requires Good(m) && Sound(m, start) && Run(m, start, events, a)
    ensures Run(m, start, events + more, b) && Idle(b)
    ensures forall r :: r in b.lost ==> r in a.lost || (IsWanted(m, r) && IsRefused(m, r))
  {
    RunKeeps(m, start, events, a);
    assert BeginsFull(events) && Steps(m, start, events, a);
    hide Steps, Sound, Good, IsWanted, IsRefused, Coming, BeginsFull, Idle, Downloaded;
    var more1, p := SettleDownloads(m, start, events, a);
    var more2;
    more2, b := ApplyAll(m, start, events + more1, p);
    more := more1 + more2;
    Regrouped(events, more1, more2, []);
    NoEvents(more1 + more2);
    NoEvents(events + more1 + more2);
    StillFull(events, more);
  }

  // --- Answers ---

  lemma {:induction false} Enumerate<T>(items: set<T>) returns (order: seq<T>)
    ensures forall x :: x in order <==> x in items
    decreases |items|
  {
    order := [];
    if items != {} {
      var x :| x in items;
      var rest := Enumerate(items - {x});
      order := rest + [x];
    }
  }

  lemma SomeOrder(answer: Mapper) returns (order: seq<D.Request>)
    ensures Covers(order, answer)
  {
    order := Enumerate(set ns, name | ns in answer && name in answer[ns] :: D.FileRequest(ns, name, answer[ns][name]));
  }

  function NamespacesOf(fs: set<Wanted>): set<string> { set f | f in fs :: f.ns }

  function NamesIn(fs: set<Wanted>, ns: string): set<string> { set f | f in fs && f.ns == ns :: f.name }

  ghost function FileIn(fs: set<Wanted>, ns: string, name: string): (f: Wanted)
    requires name in NamesIn(fs, ns)
    ensures f in fs && SameFile(f, ns, name)
  {
    var f :| f in fs && SameFile(f, ns, name);
    f
  }

  // The answer that names the files in fs, each with its version.
  ghost function Naming(fs: set<Wanted>): Mapper {
    map ns | ns in NamespacesOf(fs) :: map name | name in NamesIn(fs, ns) :: FileIn(fs, ns, name).version
  }

  // The answer names these files and no others.
  ghost predicate NamesJust(answer: Mapper, fs: set<Wanted>) {
    && (forall ns, name :: Has(answer, ns, name) ==> exists f :: f in fs && SameFile(f, ns, name))
    && (forall f :: f in fs ==> Has(answer, f.ns, f.name) && answer[f.ns][f.name] == f.version)
  }

  lemma NamingNames(m: Setting, fs: set<Wanted>)
    requires Good(m) && fs <= m.catalogue
    ensures NamesJust(Naming(fs), fs)
  {
    hide D.KeysApart;
    forall f | f in fs ensures Has(Naming(fs), f.ns, f.name) && Naming(fs)[f.ns][f.name] == f.version {
      assert f.ns in NamespacesOf(fs) && f.name in NamesIn(fs, f.ns);
      assert FileIn(fs, f.ns, f.name) == f;
    }
    forall ns, name | Has(Naming(fs), ns, name) ensures exists f :: f in fs && SameFile(f, ns, name) {
      assert FileIn(fs, ns, name) in fs;
    }
  }

  lemma OneOfName(m: Setting, f: Wanted, g: Wanted)
    requires Good(m) && f in m.catalogue && g in m.catalogue && SameFile(g, f.ns, f.name)
    ensures f == g
  {
    hide D.KeysApart;
  }

  lemma UnrecordedAnswer(m: Setting, mapper: Mapper, fs: set<Wanted>, answer: Mapper)
    requires Good(m) && fs == (set f | f in m.catalogue && !Recorded(mapper, f)) && NamesJust(answer, fs)
    ensures Names(m.catalogue, mapper, answer)
  {
    hide Good;
    forall f | f in m.catalogue
      ensures if DigestIn(mapper, f.ns, f.name) == f.digest then !Has(answer, f.ns, f.name)
              else Has(answer, f.ns, f.name) && answer[f.ns][f.name] == f.version
    {
      assert f in fs <==> !Recorded(mapper, f);
      if Has(answer, f.ns, f.name) {
        var g :| g in fs && SameFile(g, f.ns, f.name);
        OneOfName(m, f, g);
      }
    }
  }

  // Some answer can always be given, and queued in some order.
  lemma FullAnswer(m: Setting, a: Agent) returns (e: Event)
    requires Good(m)
    ensures e.FullSync? && Possible(m, a, e)
  {
    hide Good, Names, Naming, NamesJust, Covers, Recorded;
    var fs := set f | f in m.catalogue && !Recorded(a.mapper, f);
    NamingNames(m, fs);
    UnrecordedAnswer(m, a.mapper, fs, Naming(fs));
    var order := SomeOrder(Naming(fs));
    e := FullSync(Naming(fs), order);
  }

  function NoDigests(answer: Mapper): Mapper { map ns | ns in answer :: map name | name in answer[ns] :: "" }

  lemma AskedAnswer(m: Setting, fs: set<Wanted>, answer: Mapper)
    requires Good(m) && fs <= m.catalogue && NamesJust(answer, fs)
    ensures NamesAsked(m.catalogue, NoDigests(answer), answer)
  {
    assert forall f :: f in m.catalogue ==> f.digest != "";
    hide Good;
    forall f | f in m.catalogue && Has(NoDigests(answer), f.ns, f.name)
      ensures Has(answer, f.ns, f.name) && answer[f.ns][f.name] == f.version
    {
      assert Has(answer, f.ns, f.name);
      var g :| g in fs && SameFile(g, f.ns, f.name);
      OneOfName(m, f, g);
    }
  }

  // Files asked for with no digest are named.
  lemma PartialAnswer(m: Setting, a: Agent, fs: set<Wanted>) returns (e: Event)
    requires Good(m) && fs <= m.catalogue
    ensures e.PartialSync? && Possible(m, a, e)
    ensures forall f :: f in fs ==> ReqOf(f) in e.order
  {
    hide Good, NamesAsked, Naming, NoDigests;
    NamingNames(m, fs);
    AskedAnswer(m, fs, Naming(fs));
    var order := SomeOrder(Naming(fs));
    e := PartialSync(NoDigests(Naming(fs)), Naming(fs), order);
  }

  // --- Everything that downloads bring can wait to be applied ---

  // Only the queue has grown, and marks have been set.
  predicate Grown(a: Agent, b: Agent) {
    && b == a.(downloads := b.downloads, disk := b.disk)
    && forall r :: r in a.downloads.queue ==> r in b.downloads.queue
  }

  lemma GrownContinues(m: Setting, a: Agent, b: Agent)
    requires Grown(a, b)
    ensures Continues(m, a, b)
  {
    forall h | Coming(m, a, h) ensures Coming(m, b, h) { StillComing(m, a, b, h); }
    hide Coming, IsWanted, IsRefused;
  }

  lemma StillComing(m: Setting, a: Agent, b: Agent, h: Wanted)
    requires Grown(a, b) && Coming(m, a, h)
    ensures Coming(m, b, h)
  {
    hide InTasks, Yields, D.ArgsKey;
  }

  lemma QueuedIsComing(m: Setting, a: Agent, h: Wanted)
    requires ReqOf(h) in a.downloads.queue && Yields(m, h).Some?
    ensures Coming(m, a, h)
  {
    hide InTasks, Yields, D.ArgsKey;
  }

  lemma SyncContinues(m: Setting, a: Agent, e: Event)
    requires Good(m) && Sound(m, a) && Possible(m, a, e) && (e.FullSync? || e.PartialSync?)
    ensures Continues(m, a, Step(m, a, e))
    ensures forall f :: f in m.catalogue && ReqOf(f) in e.order && Yields(m, f).Some? ==> Coming(m, Step(m, a, e), f)
  {
    SyncMeans(m, a, e);
    var b := Step(m, a, e);
    assert Grown(a, b);
    forall f | f in m.catalogue && Yields(m, f).Some? ensures D.AddKey(ReqOf(f)) !in m.taken { YieldIsFound(m, f); }
    hide *;
    GrownContinues(m, a, b);
    forall f | f in m.catalogue && ReqOf(f) in e.order && Yields(m, f).Some? ensures Coming(m, b, f) {
      QueuedIsComing(m, b, f);
    }
  }

  lemma NoSteps(m: Setting, a: Agent)
    ensures Steps(m, a, [], a)
  {
  }

  lemma StillFull(events: seq<Event>, more: seq<Event>)
    requires BeginsFull(events)
    ensures BeginsFull(events + more)
  {
  }

  // All that any download can bring has been downloaded and nothing is applied yet.
  lemma AllReady(m: Setting, start: Agent) returns (events: seq<Event>, a: Agent)
    requires Good(m) && Sound(m, start)
    ensures BeginsFull(events) && Steps(m, start, events, a) && Sound(m, a) && Downloaded(a) && Continues(m, start, a)
    ensures forall h :: h in m.catalogue && Yields(m, h).Some? ==> Ready(m, a, h)
  {
    hide *;
    var first := FullAnswer(m, start);
    NoSteps(m, start);
    StepsSnoc(m, start, [], start, first);
    SyncContinues(m, start, first);
    SyncMeans(m, start, first);
    var a1 := Step(m, start, first);
    var second := PartialAnswer(m, a1, m.catalogue);
    StepsSnoc(m, start, [] + [first], a1, second);
    SyncContinues(m, a1, second);
    SyncMeans(m, a1, second);
    var a2 := Step(m, a1, second);
    ContinuesFurther(m, start, a1, a2);
    var more;
    more, a := SettleDownloads(m, start, [] + [first] + [second], a2);
    events := [] + [first] + [second] + more;
    assert BeginsFull(events) by { FirstOf(first, [second] + more); assert events == [first] + ([second] + more); }
    ContinuesFurther(m, start, a2, a);
    AllArrived(m, a2, a);
  }

  lemma FirstOf(e: Event, rest: seq<Event>)
    requires e.FullSync?
    ensures BeginsFull([e] + rest)
  {
  }

  // Every download that brings something has its update ready, or applied.
  predicate Armed(m: Setting, a: Agent, h: Wanted) {
    Yields(m, h).Some? ==> Ready(m, a, h) || DigestIn(a.mapper, h.ns, h.name) == Yields(m, h).value
  }

  ghost predicate AllArmed(m: Setting, a: Agent) { forall h :: h in m.catalogue ==> Armed(m, a, h) }

  // The update of g is applied where it takes effect.
  lemma ApplyUpdate(m: Setting, start: Agent, events: seq<Event>, a: Agent, g: Wanted) returns (e: Event, b: Agent)
    requires Good(m) && Sound(m, a) && Steps(m, start, events, a) && Downloaded(a) && AllArmed(m, a)
    requires g in m.catalogue && Yields(m, g).Some? && DigestIn(a.mapper, g.ns, g.name) != Yields(m, g).value
    requires DigestIn(a.mapper, Yields(m, g).value, g.name) != Yields(m, g).value
    ensures Steps(m, start, events + [e], b) && Sound(m, b) && Downloaded(b) && AllArmed(m, b) && b.lost == a.lost
    ensures b.mapper == After(m, a.mapper, g) && DigestIn(b.mapper, g.ns, g.name) == Yields(m, g).value
  {
    assert Armed(m, a, g);
    var k :| 0 <= k < |a.updates| && a.updates[k] == UpdateOf(m, g);
    e, b := Applying(k), Apply(a, k);
    hide Good, AllArmed, Steps, Sound, Apply, Yields, DigestIn, FileUpdated;
    ApplyFrame(m, a, k);
    StepsSnoc(m, start, events, a, e);
    EffectOfUpdate(m, a, k, g);
    StillArmed(m, a, k, g);
  }

  lemma EffectOfUpdate(m: Setting, a: Agent, k: nat, g: Wanted)
    requires Sound(m, a) && k < |a.updates| && Yields(m, g).Some? && a.updates[k] == UpdateOf(m, g)
    requires DigestIn(a.mapper, Yields(m, g).value, g.name) != Yields(m, g).value
    ensures Apply(a, k).mapper == After(m, a.mapper, g)
    ensures DigestIn(Apply(a, k).mapper, g.ns, g.name) == Yields(m, g).value
  {
    var h := AppliedFile(m, a, k);
    FileUpdatedMeans(a.mapper, UpdateOf(m, g), true, g.ns, g.name);
    hide FileUpdated, Yields, DigestIn, Sound;
  }

  lemma StillArmed(m: Setting, a: Agent, k: nat, g: Wanted)
    requires Good(m) && AllArmed(m, a) && g in m.catalogue && Yields(m, g).Some?
    requires k < |a.updates| && a.updates[k] == UpdateOf(m, g)
    requires Apply(a, k).mapper == After(m, a.mapper, g)
    requires DigestIn(Apply(a, k).mapper, g.ns, g.name) == Yields(m, g).value
    ensures AllArmed(m, Apply(a, k))
  {
    var b := Apply(a, k);
    assert b.updates == a.updates[..k] + a.updates[k+1..];
    hide D.KeysApart, Yields, DigestIn, Apply, FileUpdated;
    forall h | h in m.catalogue ensures Armed(m, b, h) {
      assert Armed(m, a, h);
      FileUpdatedMeans(a.mapper, UpdateOf(m, g), true, h.ns, h.name);
      if Yields(m, h).Some? && h != g {
        assert !SameFile(h, g.ns, g.name);
        if UpdateOf(m, h) in a.updates { UpdatesWithout(a.updates, k, UpdateOf(m, h)); }
      }
    }
  }

  lemma NoEvents(events: seq<Event>)
    ensures events + [] == events
  {
  }

  lemma EventLast(events: seq<Event>, more: seq<Event>, e: Event)
    ensures events + more + [e] == events + (more + [e])
  {
  }

  // What is loose can be made to come apart.
  lemma {:induction false} ComesApart(m: Setting, start: Agent, events: seq<Event>, a: Agent, name: string,
      digest: string, n: nat)
    returns (more: seq<Event>, b: Agent)
    requires Good(m) && Sound(m, a) && Steps(m, start, events, a) && Downloaded(a) && AllArmed(m, a)
    requires Loose(m, a.mapper, name, digest, n)
    ensures Steps(m, start, events + more, b) && Sound(m, b) && Downloaded(b) && AllArmed(m, b) && b.lost == a.lost
    ensures DigestIn(b.mapper, digest, name) != digest
    decreases n
  {
    if DigestIn(a.mapper, digest, name) != digest {
      more, b := [], a;
      NoEvents(events);
    } else {
      var g :| g in m.catalogue && Loosens(m, g, name, digest) && Loose(m, a.mapper, name, Yields(m, g).value, n - 1);
      assert Yields(m, g).Some? && Yields(m, g).value != digest && g.ns == digest && g.name == name;
      hide Loosens, SameFile, Good, Sound, Steps, Downloaded, AllArmed, Yields, DigestIn, Loose;
      more, b := ComesApart(m, start, events, a, name, Yields(m, g).value, n - 1);
      if DigestIn(b.mapper, digest, name) == digest {
        var e;
        e, b := ApplyUpdate(m, start, events + more, b, g);
        EventLast(events, more, e);
        more := more + [e];
      }
    }
  }

  // --- A file that is not safe is missed ---

  lemma Missed(m: Setting, start: Agent, events: seq<Event>, a: Agent, f: Wanted)
    returns (more: seq<Event>, b: Agent)
    requires Good(m) && Sound(m, a) && Steps(m, start, events, a) && Downloaded(a) && f in m.catalogue
    requires Doomed(m, a, f) && ReqOf(f) !in a.lost
    ensures Steps(m, start, events + more, b) && Idle(b) && !Settled(b, f)
  {
    hide *;
    more, b := FinishWithout(m, start, events, a, f);
    NotSettled(b, f);
  }

  lemma IsRun(m: Setting, start: Agent, events: seq<Event>, more: seq<Event>, b: Agent)
    requires BeginsFull(events) && Steps(m, start, events + more, b)
    ensures Run(m, start, events + more, b)
  {
    StillFull(events, more);
    hide Steps;
  }

  lemma NotSettled(b: Agent, f: Wanted)
    requires !Recorded(b.mapper, f) && ReqOf(f) !in b.lost
    ensures !Settled(b, f)
  {
  }

  lemma NeverLost(m: Setting, start: Agent, a: Agent, f: Wanted)
    requires Continues(m, start, a) && start.lost == {} && f in m.catalogue
    requires Taken(m, f) || !Serve(m, ReqOf(f)).Refused?
    ensures ReqOf(f) !in a.lost
  {
    hide Coming, Serve;
  }

  // Unrecorded and shadowed: all its updates are skipped.
  lemma {:induction false} DropUpdates(m: Setting, start: Agent, events: seq<Event>, a: Agent, f: Wanted)
    returns (more: seq<Event>, b: Agent)
    requires Good(m) && Sound(m, a) && Steps(m, start, events, a) && Downloaded(a) && f in m.catalogue
    requires DigestIn(a.mapper, f.digest, f.name) == f.digest && !Recorded(a.mapper, f)
    ensures Steps(m, start, events + more, b) && Sound(m, b) && Downloaded(b) && b.lost == a.lost && Doomed(m, b, f)
    decreases |a.updates|
  {
    if DataOf(f) !in a.updates {
      more, b := [], a;
      NoEvents(events);
    } else {
      var k :| 0 <= k < |a.updates| && a.updates[k] == DataOf(f);
      var e := Applying(k);
      FileUpdatedMeans(a.mapper, DataOf(f), true, f.ns, f.name);
      FileUpdatedMeans(a.mapper, DataOf(f), true, f.digest, f.name);
      hide Good, Sound, Steps, Apply, FileUpdated, DigestIn, Doomed;
      var g := AppliedFile(m, a, k);
      ApplyFrame(m, a, k);
      StepsSnoc(m, start, events, a, e);
      var rest;
      rest, b := DropUpdates(m, start, events + [e], Apply(a, k), f);
      more := [e] + rest;
      ConsEvent(events, e, rest);
    }
  }

  // If the lookup does not find f's digest yet, recording the shadowing file makes it.
  lemma Lurk(m: Setting, start: Agent, events: seq<Event>, a: Agent, f: Wanted)
    returns (more: seq<Event>, b: Agent)
    requires Good(m) && Sound(m, a) && Steps(m, start, events, a) && Downloaded(a) && AllArmed(m, a)
    requires f in m.catalogue && Shadowed(m, a.mapper, f) && !Recorded(a.mapper, f)
    ensures Steps(m, start, events + more, b) && Sound(m, b) && Downloaded(b) && b.lost == a.lost
    ensures DigestIn(b.mapper, f.digest, f.name) == f.digest && !Recorded(b.mapper, f)
  {
    if DigestIn(a.mapper, f.digest, f.name) == f.digest {
      more, b := [], a;
      NoEvents(events);
    } else {
      var g :| g in m.catalogue && Shadows(m, g, f);
      FileUpdatedMeans(a.mapper, UpdateOf(m, g), true, f.ns, f.name);
      hide Good, Sound, Steps, Downloaded, AllArmed, Yields, DigestIn, FileUpdated;
      var e;
      e, b := ApplyUpdate(m, start, events, a, g);
      more := [e];
    }
  }

  lemma ReadyIsArmed(m: Setting, a: Agent)
    requires forall h :: h in m.catalogue && Yields(m, h).Some? ==> Ready(m, a, h)
    ensures AllArmed(m, a)
  {
    hide Yields;
  }

  // A shadowed file whose download brings its bytes.
  lemma ShadowedIsMissed(m: Setting, start: Agent, f: Wanted) returns (events: seq<Event>, b: Agent)
    requires Good(m) && Sound(m, start) && start.lost == {} && f in m.catalogue
    requires !Recorded(start.mapper, f) && Shadowed(m, start.mapper, f) && Yields(m, f).Some?
    ensures Run(m, start, events, b) && Idle(b) && !Settled(b, f)
  {
    YieldIsFound(m, f);
    assert !Serve(m, ReqOf(f)).Refused?;
    hide *;
    var events1, a1 := AllReady(m, start);
    NeverLost(m, start, a1, f);
    SameMapper(m, start, a1);
    ReadyIsArmed(m, a1);
    var events2, a2 := Lurk(m, start, events1, a1, f);
    var events3, a3 := DropUpdates(m, start, events1 + events2, a2, f);
    var events4;
    events4, b := Missed(m, start, events1 + events2 + events3, a3, f);
    events := events1 + (events2 + events3 + events4);
    Regrouped(events1, events2, events3, events4);
    IsRun(m, start, events1, events2 + events3 + events4, b);
  }

  lemma SameMapper(m: Setting, a: Agent, b: Agent)
    requires Continues(m, a, b)
    ensures b.mapper == a.mapper
  {
  }

  // An unrecorded file whose download brings nothing or other bytes.
  lemma UnservedIsMissed(m: Setting, start: Agent, f: Wanted) returns (events: seq<Event>, b: Agent)
    requires Good(m) && Sound(m, start) && start.lost == {} && f in m.catalogue
    requires !Recorded(start.mapper, f) && Yields(m, f) != Some(f.digest)
    requires Taken(m, f) || !Serve(m, ReqOf(f)).Refused?
    ensures Run(m, start, events, b) && Idle(b) && !Settled(b, f)
  {
    assert forall a: Agent :: a.mapper == start.mapper ==> Doomed(m, a, f);
    hide *;
    var events1, a1 := AllReady(m, start);
    NeverLost(m, start, a1, f);
    SameMapper(m, start, a1);
    var events2;
    events2, b := Missed(m, start, events1, a1, f);
    events := events1 + events2;
    IsRun(m, start, events1, events2, b);
  }

  lemma OtherBytes(m: Setting, a: Agent, f: Wanted)
    requires Yields(m, f).Some? && Yields(m, f).value != f.digest && !Recorded(a.mapper, f)
    ensures Doomed(m, a, f)
  {
  }

  lemma WrongIsUnrecorded(m: Setting, b: Agent, f: Wanted)
    requires Yields(m, f).Some? && Yields(m, f).value != f.digest
    requires DigestIn(b.mapper, f.ns, f.name) == Yields(m, f).value
    ensures !Recorded(b.mapper, f)
  {
  }

  // A recorded file whose download brings other bytes that are not pinned.
  lemma OverwrittenIsMissed(m: Setting, start: Agent, f: Wanted, n: nat) returns (events: seq<Event>, b: Agent)
    requires Good(m) && Sound(m, start) && start.lost == {} && f in m.catalogue
    requires Yields(m, f).Some? && Yields(m, f).value != f.digest &&
      Loose(m, start.mapper, f.name, Yields(m, f).value, n)
    ensures Run(m, start, events, b) && Idle(b) && !Settled(b, f)
  {
    YieldIsFound(m, f);
    assert !Serve(m, ReqOf(f)).Refused?;
    assert forall mapper :: !Recorded(mapper, f) || DigestIn(mapper, f.ns, f.name) != Yields(m, f).value;
    hide *;
    var events1, a1 := AllReady(m, start);
    NeverLost(m, start, a1, f);
    SameMapper(m, start, a1);
    ReadyIsArmed(m, a1);
    var events2, a2 := ComesApart(m, start, events1, a1, f.name, Yields(m, f).value, n);
    var events3 := [];
    if Recorded(a2.mapper, f) {
      var e;
      e, a2 := ApplyUpdate(m, start, events1 + events2, a2, f);
      WrongIsUnrecorded(m, a2, f);
      events3 := [e];
    } else {
      NoEvents(events1 + events2);
    }
    OtherBytes(m, a2, f);
    var events4;
    events4, b := Missed(m, start, events1 + events2 + events3, a2, f);
    events := events1 + (events2 + events3 + events4);
    Regrouped(events1, events2, events3, events4);
    IsRun(m, start, events1, events2 + events3 + events4, b);
  }

  lemma UnsafeIsMissed(m: Setting, start: Agent, f: Wanted) returns (events: seq<Event>, b: Agent)
    requires Good(m) && Sound(m, start) && start.lost == {} && f in m.catalogue && !Safe(m, start.mapper, f)
    ensures Run(m, start, events, b) && Idle(b) && !Settled(b, f)
  {
    hide Good, Sound, Recorded, Shadowed, Steps, Settled, Loose, Serve, Taken;
    if Recorded(start.mapper, f) {
      var n: nat :| Loose(m, start.mapper, f.name, Yields(m, f).value, n);
      events, b := OverwrittenIsMissed(m, start, f, n);
    } else if Yields(m, f) == Some(f.digest) {
      YieldIsFound(m, f);
      events, b := ShadowedIsMissed(m, start, f);
    } else {
      events, b := UnservedIsMissed(m, start, f);
    }
  }

  // Every run that ends idle leaves the file recorded or visibly given up, for
  // every order of events, if and only if the file is safe at the start.
  lemma SettlesIff(m: Setting, start: Agent, f: Wanted)
    requires Good(m) && Idle(start) && start.downloads.keys == m.taken && start.lost == {} && f in m.catalogue
    ensures (forall events, a :: Run(m, start, events, a) && Idle(a) ==> Settled(a, f)) <==> Safe(m, start.mapper, f)
  {
    StartSound(m, start);
    hide *;
    if Safe(m, start.mapper, f) {
      forall events, a | Run(m, start, events, a) && Idle(a) ensures Settled(a, f) {
        SafeSettles(m, start, events, a, f);
      }
    } else {
      var events, b := UnsafeIsMissed(m, start, f);
    }
  }
}
