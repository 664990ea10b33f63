// Anti-entropy between an agent and the manager. The agent reports its mapper
// and queues a download for every file the answer names; downloads fail or
// succeed, are retried in rounds or given up; successes reach the mapper through
// a queue of updates that several workers empty in any order. The manager does
// not change meanwhile.
module Sync {
  import opened Wrappers
  import opened FileMapper
  import opened SyncServer
  import opened ConfigModel
  import D = DownloadQueue
  import Paths
  import Urls

  // What the agent's disk holds for a file: a copy, or the empty mark of a file
  // the manager does not have. Entries are kept by the path of the file.
  datatype Entry = Copy(content: string) | NotFound

  // While a round of retries runs: the tasks it has yet to look at, the keys it
  // has attempted and the tasks that are to be tried again.
  datatype Agent = Agent(downloads: D.Downloads, failures: seq<D.Task>,
                         todo: seq<D.Task>, seen: set<string>, kept: seq<D.Task>,
                         updates: seq<FileData>, mapper: Mapper, disk: map<string, Entry>, lost: set<D.Request>)

  // What stays as it is during a run: the manager's files, the agent's site, the
  // released files of the site the manager takes it for, the URLs at which other
  // routes answer with something, and the keys left by earlier package requests.
  datatype Setting = Setting(files: map<string, string>, site: string, catalogue: set<Wanted>,
                             others: set<string>, taken: set<string>)

  function ReqOf(f: Wanted): D.Request { D.FileRequest(f.ns, f.name, f.version) }

  function DataOf(f: Wanted): FileData { FileData(f.ns, f.name, f.digest) }

  // --- The manager as seen by downloads ---

  // A request that is refused fails whenever it is tried.
  datatype Reply = Found(content: string) | Absent | Refused

  // ServeFile, asked for what the request's URL is read as.
  function Serve(m: Setting, req: D.Request): Reply
    requires req.FileRequest?
  {
    var url := Urls.FileURL(m.site, req.ns, req.version, req.name);
    match Urls.Reads(url)
    case Malformed => Refused
    case Elsewhere => if url in m.others then Refused else Absent
    case Asks(site, ns, version, name) =>
      var path := Paths.FilePath(Paths.CONFIG_TOP, site, ns, name, version);
      if name != "" && path in m.files then Found(m.files[path]) else Absent
  }

  function Requests(catalogue: set<Wanted>): set<D.Request> { set f | f in catalogue :: ReqOf(f) }

  // Released files have digests, one name stands for one of them, and so does one key.
  ghost predicate Good(m: Setting) {
    && (forall f :: f in m.catalogue ==> f.digest != "")
    && (forall f, g :: f in m.catalogue && g in m.catalogue && SameFile(f, g.ns, g.name) ==> f == g)
    && D.KeysApart(Requests(m.catalogue))
  }

  // The key of an earlier package request keeps the file from being queued.
  predicate Taken(m: Setting, f: Wanted) { D.AddKey(ReqOf(f)) in m.taken }

  // The digest of what a download of the file brings, if it brings anything.
  function Yields(m: Setting, f: Wanted): Option<string> {
    if Taken(m, f) then None
    else match Serve(m, ReqOf(f)) case Found(content) => Some(DigestOf(content)) case _ => None
  }

  // --- The steps ---

  function AddAll(d: D.Downloads, order: seq<D.Request>): D.Downloads {
    if order == [] then d else D.Add(AddAll(d, order[..|order|-1]), order[|order|-1])
  }

  // The requests for an answer, in some order.
  ghost predicate Covers(order: seq<D.Request>, answer: Mapper) {
    && (forall ns, name :: Has(answer, ns, name) ==> D.FileRequest(ns, name, answer[ns][name]) in order)
    && (forall r :: r in order ==> r.FileRequest? && Has(answer, r.ns, r.name) && answer[r.ns][r.name] == r.version)
  }

  // The places of the files that were reported but not named.
  function Unnamed(required: Mapper, answer: Mapper): set<string> {
    set ns, name | ns in required && name in required[ns] && !Has(answer, ns, name) :: Place(ns, name)
  }

  function MarkPlaces(disk: map<string, Entry>, places: set<string>): map<string, Entry> {
    map place | place in disk.Keys + places :: if place in places then NotFound else disk[place]
  }

  // They are marked missing on disk.
  function Marked(disk: map<string, Entry>, required: Mapper, answer: Mapper): map<string, Entry> {
    MarkPlaces(disk, Unnamed(required, answer))
  }

  function Refresh(a: Agent, required: Mapper, answer: Mapper, order: seq<D.Request>): Agent {
    a.(downloads := AddAll(a.downloads, order), disk := Marked(a.disk, required, answer))
  }

  // A download that goes through: the content is stored and an update queued; a
  // file that is not found is marked and forgotten.
  function Receive(a: Agent, m: Setting, req: D.Request): Agent
    requires req.FileRequest?
  {
    match Serve(m, req)
    case Found(content) =>
      a.(disk := a.disk[Place(req.ns, req.name) := Copy(content)],
         updates := a.updates + [FileData(req.ns, req.name, DigestOf(content))])
    case _ => a.(disk := a.disk[Place(req.ns, req.name) := NotFound])
  }

  predicate CanBe(m: Setting, req: D.Request, ok: bool) { req.FileRequest? && (ok ==> !Serve(m, req).Refused?) }

  function Download(a: Agent, m: Setting, ok: bool): Agent
    requires a.downloads.queue != [] && CanBe(m, a.downloads.queue[0], ok)
  {
    var req := a.downloads.queue[0];
    var popped := a.(downloads := D.Pop(a.downloads));
    if ok then Receive(popped, m, req) else popped.(failures := a.failures + [D.Task(req, 1)])
  }

  // The round looks at its next task; one with a key it has attempted is dropped.
  function Retry(a: Agent, m: Setting, ok: bool): Agent
    requires a.todo != [] && CanBe(m, a.todo[0].req, ok)
  {
    var t := a.todo[0];
    var next := a.(todo := a.todo[1..], seen := a.seen + {D.ArgsKey(t.req)});
    if D.ArgsKey(t.req) in a.seen then next
    else if ok then Receive(next, m, t.req)
    else if t.failed + 1 > D.MAX_FAILED then next.(lost := a.lost + {t.req})
    else next.(kept := a.kept + [t.(failed := t.failed + 1)])
  }

  // A worker applies some queued update.
  function Apply(a: Agent, k: nat): Agent
    requires k < |a.updates|
  {
    var d := a.updates[k];
    a.(updates := a.updates[..k] + a.updates[k+1..],
       mapper := FileUpdated(a.mapper, d, Place(d.ns, d.name) in a.disk).0)
  }

  // A full comparison reports the mapper, a partial one any digests of any files.
  // Failures that arrive while a round runs wait for the next one.
  datatype Event = FullSync(answer: Mapper, order: seq<D.Request>)
                 | PartialSync(required: Mapper, answer: Mapper, order: seq<D.Request>)
                 | Downloading(ok: bool) | RetryStarts | Retrying(ok: bool) | RetryEnds | Applying(k: nat)

  ghost predicate Possible(m: Setting, a: Agent, e: Event) {
    match e
    case FullSync(answer, order) => Names(m.catalogue, a.mapper, answer) && Covers(order, answer)
    case PartialSync(required, answer, order) => NamesAsked(m.catalogue, required, answer) && Covers(order, answer)
    case Downloading(ok) => a.downloads.queue != [] && CanBe(m, a.downloads.queue[0], ok)
    case RetryStarts => a.todo == [] && a.seen == {} && a.kept == []
    case Retrying(ok) => a.todo != [] && CanBe(m, a.todo[0].req, ok)
    case RetryEnds => a.todo == []
    case Applying(k) => k < |a.updates|
  }

  ghost function Step(m: Setting, a: Agent, e: Event): Agent
    requires Possible(m, a, e)
  {
    match e
    case FullSync(answer, order) => Refresh(a, a.mapper, answer, order)
    case PartialSync(required, answer, order) => Refresh(a, required, answer, order)
    case Downloading(ok) => Download(a, m, ok)
    case RetryStarts => a.(todo := a.failures, failures := [])
    case Retrying(ok) => Retry(a, m, ok)
    case RetryEnds => a.(failures := a.failures + a.kept, kept := [], seen := {})
    case Applying(k) => Apply(a, k)
  }

  // --- What is on its way ---

  predicate InTasks(tasks: seq<D.Task>, req: D.Request) { exists t :: t in tasks && t.req == req }

  predicate InFlight(a: Agent, req: D.Request) {
    || req in a.downloads.queue
    || InTasks(a.failures, req)
    || (InTasks(a.todo, req) && D.ArgsKey(req) !in a.seen)
    || InTasks(a.kept, req)
  }

  predicate IsWanted(m: Setting, req: D.Request) { exists f :: f in m.catalogue && !Taken(m, f) && ReqOf(f) == req }

  // The queue holds each wanted request at most once; the keys are theirs and
  // those that were taken before.
  ghost predicate QueueOk(d: D.Downloads, known: set<D.Request>, taken: set<string>) {
    && (forall i, j :: 0 <= i < j < |d.queue| ==> d.queue[i] != d.queue[j])
    && (forall r :: r in d.queue ==> r in known && D.AddKey(r) in d.keys && D.AddKey(r) !in taken)
    && (forall key :: key in d.keys ==> key in taken || exists r :: r in d.queue && D.AddKey(r) == key)
    && taken <= d.keys
  }

  ghost predicate AllWanted(m: Setting, tasks: seq<D.Task>) { forall t :: t in tasks ==> IsWanted(m, t.req) }

  // The update of a file that a download brought and stored.
  predicate IsUpdate(m: Setting, a: Agent, d: FileData) {
    && Place(d.ns, d.name) in a.disk
    && exists f :: f in m.catalogue && SameFile(f, d.ns, d.name) && Yields(m, f) == Some(d.digest)
  }

  ghost predicate AllUpdates(m: Setting, a: Agent) { forall d :: d in a.updates ==> IsUpdate(m, a, d) }

  // Only released files are on their way, and what their downloads bring.
  ghost predicate Sound(m: Setting, a: Agent) {
    && QueueOk(a.downloads, Requests(m.catalogue), m.taken)
    && AllWanted(m, a.failures) && AllWanted(m, a.todo) && AllWanted(m, a.kept)
    && AllUpdates(m, a)
  }

  // --- Queueing ---

  lemma MergedIff(d: D.Downloads, known: set<D.Request>, taken: set<string>, req: D.Request)
    requires QueueOk(d, known, taken) && D.KeysApart(known) && req in known
    ensures D.AddKey(req) in d.keys <==> req in d.queue || D.AddKey(req) in taken
  {
    hide D.AddKey, D.ArgsKey;
  }

  lemma AddOk(d: D.Downloads, known: set<D.Request>, taken: set<string>, req: D.Request)
    requires QueueOk(d, known, taken) && D.KeysApart(known) && req in known
    ensures QueueOk(D.Add(d, req), known, taken)
    ensures forall r :: r in D.Add(d, req).queue <==> r in d.queue || (r == req && D.AddKey(req) !in taken)
  {
    MergedIff(d, known, taken, req);
    hide D.AddKey, D.ArgsKey, D.KeysApart;
    var after := D.Add(d, req);
    if D.AddKey(req) !in d.keys {
      assert after.queue == d.queue + [req];
      assert req in after.queue;
    }
  }

  lemma {:induction false} AddAllOk(d: D.Downloads, known: set<D.Request>, taken: set<string>, order: seq<D.Request>)
    requires QueueOk(d, known, taken) && D.KeysApart(known) && forall r :: r in order ==> r in known
    ensures QueueOk(AddAll(d, order), known, taken)
    ensures forall r :: r in AddAll(d, order).queue <==> r in d.queue || (r in order && D.AddKey(r) !in taken)
    decreases |order|
  {
    if order != [] {
      hide QueueOk, D.KeysApart, D.AddKey, D.Add;
      var front, last := order[..|order|-1], order[|order|-1];
      assert order == front + [last];
      AddAllOk(d, known, taken, front);
      AddOk(AddAll(d, front), known, taken, last);
    }
  }

  lemma PopOk(d: D.Downloads, known: set<D.Request>, taken: set<string>)
    requires QueueOk(d, known, taken) && D.KeysApart(known) && d.queue != [] && d.queue[0].FileRequest?
    ensures QueueOk(D.Pop(d), known, taken)
    ensures forall r :: r in d.queue <==> r == d.queue[0] || r in D.Pop(d).queue
  {
    var first, after := d.queue[0], D.Pop(d);
    assert D.ArgsKey(first) == D.AddKey(first);
    hide D.AddKey, D.ArgsKey;
    forall r | r in after.queue ensures D.AddKey(r) in after.keys { assert r in d.queue && r != first; }
    forall key | key in after.keys && key !in taken ensures exists r :: r in after.queue && D.AddKey(r) == key {
      var r :| r in d.queue && D.AddKey(r) == key;
      assert r != first && r in after.queue;
    }
  }

  // --- Comparisons ---

  // Answers name released files only.
  lemma OrderIsKnown(m: Setting, answer: Mapper, order: seq<D.Request>)
    requires Covers(order, answer)
    requires forall ns, name :: Has(answer, ns, name) ==>
      exists f :: f in m.catalogue && SameFile(f, ns, name) && answer[ns][name] == f.version
    ensures forall r :: r in order ==> r in Requests(m.catalogue)
  {
    forall r | r in order ensures r in Requests(m.catalogue) {
      var f :| f in m.catalogue && SameFile(f, r.ns, r.name) && answer[r.ns][r.name] == f.version;
      assert ReqOf(f) == r;
    }
  }

  lemma NamedVersions(m: Setting, a: Agent, e: Event)
    requires Possible(m, a, e) && (e.FullSync? || e.PartialSync?)
    ensures forall ns, name :: Has(e.answer, ns, name) ==>
      exists f :: f in m.catalogue && SameFile(f, ns, name) && e.answer[ns][name] == f.version
  {
    forall ns, name | Has(e.answer, ns, name)
      ensures exists f :: f in m.catalogue && SameFile(f, ns, name) && e.answer[ns][name] == f.version
    {
      var f :| f in m.catalogue && SameFile(f, ns, name);
      assert Has(e.answer, f.ns, f.name);
    }
  }

  // A comparison queues what the answer names and changes nothing else but marks.
  lemma SyncMeans(m: Setting, a: Agent, e: Event)
    requires Good(m) && Sound(m, a) && Possible(m, a, e) && (e.FullSync? || e.PartialSync?)
    ensures Sound(m, Step(m, a, e))
    ensures var after := Step(m, a, e);
      && after == a.(downloads := after.downloads, disk := after.disk)
      && (forall r :: r in after.downloads.queue <==>
            r in a.downloads.queue || (r in e.order && D.AddKey(r) !in m.taken))
      && (forall place :: place in a.disk ==> place in after.disk)
  {
    NamedVersions(m, a, e);
    OrderIsKnown(m, e.answer, e.order);
    hide QueueOk, D.KeysApart, Names, NamesAsked, Covers, IsWanted, Serve, Unnamed;
    AddAllOk(a.downloads, Requests(m.catalogue), m.taken, e.order);
    var after := Step(m, a, e);
    forall d | d in after.updates ensures IsUpdate(m, after, d) { assert IsUpdate(m, a, d); }
  }

  lemma NamedIsQueued(m: Setting, a: Agent, e: Event, f: Wanted)
    requires Good(m) && Sound(m, a) && Possible(m, a, e) && e.FullSync? && f in m.catalogue
    requires !Recorded(a.mapper, f) && !Taken(m, f)
    ensures ReqOf(f) in Step(m, a, e).downloads.queue
  {
    assert Has(e.answer, f.ns, f.name) && e.answer[f.ns][f.name] == f.version;
    assert ReqOf(f) in e.order;
    hide Good, Sound, Possible, Step;
    SyncMeans(m, a, e);
  }

  // --- Downloads ---

  datatype Effect = Quiet | Delivers(req: D.Request) | Fails(req: D.Request)

  predicate Moves(e: Event) { e.Downloading? || e.RetryStarts? || e.Retrying? || e.RetryEnds? }

  function EffectOf(a: Agent, e: Event): Effect
    requires e.Downloading? ==> a.downloads.queue != []
    requires e.Retrying? ==> a.todo != []
  {
    match e
    case Downloading(ok) => if ok then Delivers(a.downloads.queue[0]) else Fails(a.downloads.queue[0])
    case Retrying(ok) =>
      if D.ArgsKey(a.todo[0].req) in a.seen then Quiet
      else if ok then Delivers(a.todo[0].req) else Fails(a.todo[0].req)
    case _ => Quiet
  }

  // Whatever the queues look like inside: all wanted requests but the one that is
  // tried stay in flight or out of it; that one arrives, stays or is given up.
  ghost predicate Effected(m: Setting, a: Agent, b: Agent, eff: Effect) {
    && b.mapper == a.mapper
    && (forall r :: IsWanted(m, r) && (eff.Quiet? || r != eff.req) ==> (InFlight(b, r) <==> InFlight(a, r)))
    && (!eff.Quiet? ==> IsWanted(m, eff.req) && InFlight(a, eff.req) && CanBe(m, eff.req, eff.Delivers?))
    && if eff.Delivers? then
         b.lost == a.lost && b.updates == Receive(a, m, eff.req).updates && b.disk == Receive(a, m, eff.req).disk
       else
         && b.updates == a.updates && b.disk == a.disk
         && (if eff.Fails? then a.lost <= b.lost <= a.lost + {eff.req} && (InFlight(b, eff.req) || eff.req in b.lost)
             else b.lost == a.lost)
  }

  lemma WantedIsFile(m: Setting, r: D.Request)
    requires IsWanted(m, r)
    ensures r.FileRequest? && r in Requests(m.catalogue) && D.AddKey(r) == D.ArgsKey(r)
  {
  }

  lemma SnocTask(tasks: seq<D.Task>, t: D.Task)
    ensures forall r :: InTasks(tasks + [t], r) <==> InTasks(tasks, r) || r == t.req
  {
    var more := tasks + [t];
    assert more[|tasks|] == t && t in more;
    forall r | InTasks(tasks, r) ensures InTasks(more, r) {
      var u :| u in tasks && u.req == r;
      assert u in more;
    }
  }

  lemma FirstTask(tasks: seq<D.Task>)
    requires tasks != []
    ensures forall r :: InTasks(tasks, r) <==> r == tasks[0].req || InTasks(tasks[1..], r)
  {
    assert tasks[0] in tasks;
    forall r | InTasks(tasks[1..], r) ensures InTasks(tasks, r) {
      var u :| u in tasks[1..] && u.req == r;
      assert u in tasks;
    }
  }

  lemma JoinTasks(a: seq<D.Task>, b: seq<D.Task>)
    ensures forall r :: InTasks(a + b, r) <==> InTasks(a, r) || InTasks(b, r)
  {
    forall r ensures InTasks(a + b, r) <==> InTasks(a, r) || InTasks(b, r) {
      if t :| t in a && t.req == r { assert t in a + b; }
      if t :| t in b && t.req == r { assert t in a + b; }
    }
  }

  lemma QueuedIsWanted(m: Setting, a: Agent, req: D.Request)
    requires Sound(m, a) && req in a.downloads.queue
    ensures IsWanted(m, req)
  {
    assert req in Requests(m.catalogue) && D.AddKey(req) !in m.taken;
    var f :| f in m.catalogue && ReqOf(f) == req;
  }

  lemma ReceiveFrame(a: Agent, m: Setting, req: D.Request)
    requires req.FileRequest?
    ensures var after := Receive(a, m, req); after == a.(disk := after.disk, updates := after.updates)
    ensures forall b: Agent :: b.disk == a.disk && b.updates == a.updates ==>
      Receive(b, m, req).disk == Receive(a, m, req).disk && Receive(b, m, req).updates == Receive(a, m, req).updates
  {
    hide Serve;
  }

  lemma DownloadEffect(m: Setting, a: Agent, ok: bool)
    requires Good(m) && Sound(m, a) && Possible(m, a, Downloading(ok))
    ensures Effected(m, a, Step(m, a, Downloading(ok)), EffectOf(a, Downloading(ok)))
  {
    var req, after := a.downloads.queue[0], Step(m, a, Downloading(ok));
    QueuedIsWanted(m, a, req);
    PopOk(a.downloads, Requests(m.catalogue), m.taken);
    SnocTask(a.failures, D.Task(req, 1));
    ReceiveFrame(a, m, req);
    ReceiveFrame(a.(downloads := D.Pop(a.downloads)), m, req);
    assert after.todo == a.todo && after.seen == a.seen && after.kept == a.kept;
    hide Good, Sound, Serve, Receive, D.Pop, D.ArgsKey, IsWanted;
  }

  // Wanted requests with one key are one request.
  lemma SameKeySameRequest(m: Setting, a: D.Request, b: D.Request)
    requires Good(m) && IsWanted(m, a) && IsWanted(m, b) && D.ArgsKey(a) == D.ArgsKey(b)
    ensures a == b
  {
    WantedIsFile(m, a);
    WantedIsFile(m, b);
    assert D.KeysApart(Requests(m.catalogue));
    hide IsWanted, D.AddKey, D.ArgsKey;
  }

  // b is a after the round has looked at its next task, which it keeps or not.
  predicate LookedAt(a: Agent, b: Agent, keeps: bool) {
    && a.todo != [] && b.todo == a.todo[1..] && b.seen == a.seen + {D.ArgsKey(a.todo[0].req)}
    && b.downloads == a.downloads && b.failures == a.failures
    && b.kept == a.kept + if keeps then [a.todo[0].(failed := a.todo[0].failed + 1)] else []
  }

  lemma LookingMoves(a: Agent, b: Agent, keeps: bool, r: D.Request)
    requires LookedAt(a, b, keeps)
    ensures D.ArgsKey(r) != D.ArgsKey(a.todo[0].req) || (D.ArgsKey(r) in a.seen && !keeps) ==>
      (InFlight(b, r) <==> InFlight(a, r))
    ensures keeps ==> InFlight(b, a.todo[0].req)
    ensures D.ArgsKey(a.todo[0].req) !in a.seen ==> InFlight(a, a.todo[0].req)
  {
    hide D.ArgsKey;
    FirstTask(a.todo);
    SnocTask(a.kept, a.todo[0].(failed := a.todo[0].failed + 1));
    assert a.kept + [] == a.kept;
    hide InTasks;
  }

  lemma RetryLooks(m: Setting, a: Agent, ok: bool)
    requires a.todo != [] && CanBe(m, a.todo[0].req, ok)
    ensures var b := Retry(a, m, ok);
      && LookedAt(a, b, D.ArgsKey(a.todo[0].req) !in a.seen && !ok && a.todo[0].failed + 1 <= D.MAX_FAILED)
      && b.mapper == a.mapper
      && if ok && D.ArgsKey(a.todo[0].req) !in a.seen then
           b.lost == a.lost && b.updates == Receive(a, m, a.todo[0].req).updates &&
             b.disk == Receive(a, m, a.todo[0].req).disk
         else
           && b.updates == a.updates && b.disk == a.disk
           && b.lost == a.lost +
             if D.ArgsKey(a.todo[0].req) !in a.seen && a.todo[0].failed + 1 > D.MAX_FAILED then {a.todo[0].req} else {}
  {
    ReceiveFrame(a, m, a.todo[0].req);
    ReceiveFrame(a.(todo := a.todo[1..], seen := a.seen + {D.ArgsKey(a.todo[0].req)}), m, a.todo[0].req);
    assert a.kept + [] == a.kept;
    hide Serve, Receive, D.ArgsKey;
  }

  lemma RetryEffect(m: Setting, a: Agent, ok: bool)
    requires Good(m) && AllWanted(m, a.todo) && a.todo != [] && CanBe(m, a.todo[0].req, ok)
    ensures Effected(m, a, Retry(a, m, ok), EffectOf(a, Retrying(ok)))
  {
    var t, b := a.todo[0], Retry(a, m, ok);
    assert IsWanted(m, t.req);
    RetryLooks(m, a, ok);
    hide Good, AllWanted, Serve, Receive, Retry, D.ArgsKey, IsWanted, InFlight, CanBe;
    var keeps := D.ArgsKey(t.req) !in a.seen && !ok && t.failed + 1 <= D.MAX_FAILED;
    LookingMoves(a, b, keeps, t.req);
    forall r | IsWanted(m, r) && r != t.req ensures InFlight(b, r) <==> InFlight(a, r) {
      if D.ArgsKey(r) == D.ArgsKey(t.req) { SameKeySameRequest(m, r, t.req); }
      LookingMoves(a, b, keeps, r);
    }
    hide LookedAt;
  }

  lemma RoundEffect(m: Setting, a: Agent, e: Event)
    requires Possible(m, a, e) && (e.RetryStarts? || e.RetryEnds?)
    ensures Effected(m, a, Step(m, a, e), Quiet)
  {
    JoinTasks(a.failures, a.kept);
    assert forall r :: !InTasks([], r);
    hide D.ArgsKey, IsWanted;
  }

  lemma EffectHolds(m: Setting, a: Agent, e: Event)
    requires Good(m) && Sound(m, a) && Possible(m, a, e) && Moves(e)
    ensures Effected(m, a, Step(m, a, e), EffectOf(a, e))
  {
    hide Good, Effected, QueueOk, AllUpdates, AllWanted, Possible;
    match e
    case Downloading(ok) => hide Sound; MovesWhat(m, a, e); DownloadEffect(m, a, ok);
    case Retrying(ok) => MovesWhat(m, a, e); RetryEffect(m, a, ok);
    case _ => hide Sound; RoundEffect(m, a, e);
  }

  lemma MovesWhat(m: Setting, a: Agent, e: Event)
    requires Possible(m, a, e)
    ensures e.Downloading? ==> a.downloads.queue != []
    ensures e.Retrying? ==> a.todo != [] && CanBe(m, a.todo[0].req, e.ok)
  {
  }

  // --- What a download brings ---

  // A download that goes through queues the update of its file, if it brings one.
  lemma ReceiveMeans(m: Setting, a: Agent, f: Wanted)
    requires f in m.catalogue && !Taken(m, f)
    ensures var after := Receive(a, m, ReqOf(f));
      && after.updates == a.updates + (if Yields(m, f).Some? then [FileData(f.ns, f.name, Yields(m, f).value)] else [])
      && Place(f.ns, f.name) in after.disk && (forall place :: place in a.disk ==> place in after.disk)
  {
    hide Serve, Place, DigestOf;
  }

  lemma DeliveredUpdates(m: Setting, a: Agent, b: Agent, req: D.Request)
    requires Effected(m, a, b, Delivers(req)) && AllUpdates(m, a)
    ensures AllUpdates(m, b) && (forall d :: d in a.updates ==> d in b.updates)
    ensures forall place :: place in a.disk ==> place in b.disk
  {
    hide InFlight, CanBe;
    var f :| f in m.catalogue && !Taken(m, f) && ReqOf(f) == req;
    ReceiveMeans(m, a, f);
    hide Effected, Receive, Yields, Place;
    forall d | d in b.updates ensures IsUpdate(m, b, d) {
      if d in a.updates { assert IsUpdate(m, a, d); } else { assert SameFile(f, d.ns, d.name); }
    }
  }

  lemma RetriedTasks(m: Setting, a: Agent, ok: bool)
    requires AllWanted(m, a.failures) && AllWanted(m, a.todo) && AllWanted(m, a.kept)
    requires a.todo != [] && CanBe(m, a.todo[0].req, ok)
    ensures var b := Retry(a, m, ok); AllWanted(m, b.failures) && AllWanted(m, b.todo) && AllWanted(m, b.kept)
  {
    RetryLooks(m, a, ok);
    hide Retry, D.ArgsKey, IsWanted, CanBe;
  }

  lemma MovedTasks(m: Setting, a: Agent, e: Event)
    requires Good(m) && Sound(m, a) && Possible(m, a, e) && Moves(e)
    ensures var b := Step(m, a, e);
      && QueueOk(b.downloads, Requests(m.catalogue), m.taken)
      && AllWanted(m, b.failures) && AllWanted(m, b.todo) && AllWanted(m, b.kept)
  {
    if e.Downloading? {
      QueuedIsWanted(m, a, a.downloads.queue[0]);
      PopOk(a.downloads, Requests(m.catalogue), m.taken);
    }
    hide QueueOk, D.Pop, Serve, IsWanted, D.ArgsKey, D.KeysApart, AllUpdates;
    if e.Retrying? {
      hide Retry, AllWanted;
      RetriedTasks(m, a, e.ok);
      RetryLooks(m, a, e.ok);
    }
  }

  lemma MoveKeeps(m: Setting, a: Agent, e: Event)
    requires Good(m) && Sound(m, a) && Possible(m, a, e) && Moves(e)
    ensures Sound(m, Step(m, a, e))
    ensures forall d :: d in a.updates ==> d in Step(m, a, e).updates
    ensures forall place :: place in a.disk ==> place in Step(m, a, e).disk
  {
    MovedTasks(m, a, e);
    EffectHolds(m, a, e);
    MovesWhat(m, a, e);
    var b, eff := Step(m, a, e), EffectOf(a, e);
    assert AllUpdates(m, a);
    hide Good, Possible, Step, QueueOk, AllWanted;
    if eff.Delivers? {
      hide Effected, AllUpdates;
      DeliveredUpdates(m, a, b, eff.req);
    } else {
      hide InFlight, CanBe;
    }
  }

  // --- Applying ---

  lemma UpdatesWithout(updates: seq<FileData>, k: nat, d: FileData)
    requires k < |updates| && d in updates && d != updates[k]
    ensures d in updates[..k] + updates[k+1..]
  {
    var j :| 0 <= j < |updates| && updates[j] == d;
    if j < k { assert updates[..k][j] == d; } else { assert updates[k+1..][j - k - 1] == d; }
  }

  lemma ApplySound(m: Setting, a: Agent, k: nat)
    requires Sound(m, a) && k < |a.updates|
    ensures Sound(m, Apply(a, k))
  {
    hide QueueOk, AllWanted, FileUpdated, Yields, Place;
    forall d | d in Apply(a, k).updates ensures IsUpdate(m, Apply(a, k), d) {
      assert d in a.updates && IsUpdate(m, a, d);
    }
  }

  lemma AppliedFile(m: Setting, a: Agent, k: nat) returns (g: Wanted)
    requires Sound(m, a) && k < |a.updates|
    ensures g in m.catalogue && Yields(m, g) == Some(a.updates[k].digest) &&
      SameFile(g, a.updates[k].ns, a.updates[k].name)
    ensures Apply(a, k).mapper == FileUpdated(a.mapper, a.updates[k], true).0
  {
    var d := a.updates[k];
    assert IsUpdate(m, a, d);
    g :| g in m.catalogue && SameFile(g, d.ns, d.name) && Yields(m, g) == Some(d.digest);
  }

  // --- Which files are safe ---

  predicate Recorded(mapper: Mapper, f: Wanted) { DigestIn(mapper, f.ns, f.name) == f.digest }

  // Another namespace is called like f's digest, and a file of f's name has that
  // digest there, already or as soon as it is recorded.
  predicate Shadowed(m: Setting, mapper: Mapper, f: Wanted) {
    f.ns != f.digest &&
    (DigestIn(mapper, f.digest, f.name) == f.digest || exists g :: g in m.catalogue && Shadows(m, g, f))
  }

  predicate Shadows(m: Setting, g: Wanted, f: Wanted) {
    SameFile(g, f.digest, f.name) && Yields(m, g) == Some(f.digest)
  }

  // Under the namespace called digest, the name is recorded with another digest,
  // or can come to be by downloads that bring the wrong bytes, n of them at most.
  ghost predicate Loose(m: Setting, mapper: Mapper, name: string, digest: string, n: nat)
    decreases n
  {
    DigestIn(mapper, digest, name) != digest ||
    (n > 0 && exists g ::
      g in m.catalogue && Loosens(m, g, name, digest) && Loose(m, mapper, name, Yields(m, g).value, n - 1))
  }

  predicate Loosens(m: Setting, g: Wanted, name: string, digest: string) {
    SameFile(g, digest, name) && Yields(m, g).Some? && Yields(m, g).value != digest
  }

  // Updates that record this digest for the name are skipped for ever.
  ghost predicate Pinned(m: Setting, mapper: Mapper, name: string, digest: string) {
    forall n: nat :: !Loose(m, mapper, name, digest, n)
  }

  // A recorded file is safe unless a download brings other bytes that may be
  // recorded. One that is not recorded is safe if its download brings its bytes
  // and their update is not skipped, or is refused and so given up in the end.
  ghost predicate Safe(m: Setting, mapper: Mapper, f: Wanted) {
    if Recorded(mapper, f) then
      Yields(m, f) == None || Yields(m, f) == Some(f.digest) || Pinned(m, mapper, f.name, Yields(m, f).value)
    else
      !Taken(m, f) && (Serve(m, ReqOf(f)).Refused? || (Yields(m, f) == Some(f.digest) && !Shadowed(m, mapper, f)))
  }

  function UpdateOf(m: Setting, g: Wanted): FileData
    requires Yields(m, g).Some?
  {
    FileData(g.ns, g.name, Yields(m, g).value)
  }

  function After(m: Setting, mapper: Mapper, g: Wanted): Mapper
    requires Yields(m, g).Some?
  {
    FileUpdated(mapper, UpdateOf(m, g), true).0
  }

  // An update that has been applied has made nothing loose that was not.
  lemma {:induction false} LooseBefore(m: Setting, mapper: Mapper, g: Wanted, name: string, digest: string, n: nat)
    requires g in m.catalogue && Yields(m, g).Some? && Loose(m, After(m, mapper, g), name, digest, n)
    ensures Loose(m, mapper, name, digest, n + 1)
    decreases n
  {
    FileUpdatedMeans(mapper, UpdateOf(m, g), true, digest, name);
    hide FileUpdated, DigestIn, Yields;
    if DigestIn(mapper, digest, name) == digest {
      if DigestIn(After(m, mapper, g), digest, name) != digest {
        assert Loosens(m, g, name, digest) && Loose(m, mapper, name, Yields(m, g).value, n);
      } else {
        var h :| h in m.catalogue && Loosens(m, h, name, digest) &&
          Loose(m, After(m, mapper, g), name, Yields(m, h).value, n - 1);
        LooseBefore(m, mapper, g, name, Yields(m, h).value, n - 1);
      }
    }
  }

  lemma PinnedStays(m: Setting, mapper: Mapper, g: Wanted, name: string, digest: string)
    requires g in m.catalogue && Yields(m, g).Some? && Pinned(m, mapper, name, digest)
    ensures Pinned(m, After(m, mapper, g), name, digest)
  {
    hide Loose;
    forall n: nat ensures !Loose(m, After(m, mapper, g), name, digest, n) {
      if Loose(m, After(m, mapper, g), name, digest, n) { LooseBefore(m, mapper, g, name, digest, n); }
    }
  }

  lemma PinnedIsRecorded(m: Setting, mapper: Mapper, name: string, digest: string)
    requires Pinned(m, mapper, name, digest)
    ensures DigestIn(mapper, digest, name) == digest
  {
    assert !Loose(m, mapper, name, digest, 0);
  }

  // A recorded safe file stays so.
  lemma RecordedStays(m: Setting, mapper: Mapper, g: Wanted, f: Wanted)
    requires Good(m) && f in m.catalogue && g in m.catalogue && Yields(m, g).Some?
    requires Recorded(mapper, f) && Safe(m, mapper, f)
    ensures Recorded(After(m, mapper, g), f) && Safe(m, After(m, mapper, g), f)
  {
    FileUpdatedMeans(mapper, UpdateOf(m, g), true, f.ns, f.name);
    assert SameFile(g, f.ns, f.name) ==> g == f;
    hide Yields, FileUpdated, D.KeysApart, DigestIn, Loose;
    if Yields(m, f).Some? && Yields(m, f).value != f.digest {
      hide Pinned;
      PinnedStays(m, mapper, g, f.name, Yields(m, f).value);
      PinnedIsRecorded(m, mapper, f.name, Yields(m, f).value);
    }
  }

  // A safe file that is not recorded stays safe, and its own update records it.
  lemma UnrecordedStays(m: Setting, mapper: Mapper, g: Wanted, f: Wanted)
    requires Good(m) && f in m.catalogue && g in m.catalogue && Yields(m, g).Some?
    requires !Recorded(mapper, f) && Safe(m, mapper, f)
    ensures Recorded(After(m, mapper, g), f) <==> g == f
    ensures Safe(m, After(m, mapper, g), f)
  {
    FileUpdatedMeans(mapper, UpdateOf(m, g), true, f.ns, f.name);
    FileUpdatedMeans(mapper, UpdateOf(m, g), true, f.digest, f.name);
    assert SameFile(g, f.ns, f.name) ==> g == f;
    assert Serve(m, ReqOf(f)).Refused? ==> Yields(m, f) == None;
    hide Serve, Yields, FileUpdated, D.KeysApart, DigestIn, Loose, Pinned;
    assert SameFile(g, f.digest, f.name) && Yields(m, g) == Some(f.digest) ==> Shadows(m, g, f);
  }

  // --- No safe file is missed ---

  // The file is recorded, or on its way, or was given up.
  predicate Tracked(m: Setting, a: Agent, f: Wanted) {
    || Recorded(a.mapper, f)
    || InFlight(a, ReqOf(f))
    || (Yields(m, f).Some? && UpdateOf(m, f) in a.updates)
    || ReqOf(f) in a.lost
  }

  lemma MoveTracks(m: Setting, a: Agent, e: Event, f: Wanted)
    requires Good(m) && Sound(m, a) && Possible(m, a, e) && Moves(e)
    requires f in m.catalogue && Safe(m, a.mapper, f) && Tracked(m, a, f)
    ensures Safe(m, Step(m, a, e).mapper, f) && Tracked(m, Step(m, a, e), f)
  {
    MoveKeeps(m, a, e);
    EffectHolds(m, a, e);
    MovesWhat(m, a, e);
    var b, eff := Step(m, a, e), EffectOf(a, e);
    hide Good, Sound, Possible, Step, InFlight, Recorded, Shadowed, Pinned;
    if !Recorded(a.mapper, f) {
      assert IsWanted(m, ReqOf(f));
      if eff.Delivers? && eff.req == ReqOf(f) { ReceiveMeans(m, a, f); }
    }
    hide IsWanted, Yields, Serve, Receive;
  }

  lemma ApplyTracks(m: Setting, a: Agent, k: nat, f: Wanted)
    requires Good(m) && Sound(m, a) && k < |a.updates|
    requires f in m.catalogue && Safe(m, a.mapper, f) && Tracked(m, a, f)
    ensures Safe(m, Apply(a, k).mapper, f) && Tracked(m, Apply(a, k), f)
  {
    var g := AppliedFile(m, a, k);
    if Yields(m, f).Some? && UpdateOf(m, f) in a.updates && UpdateOf(m, f) != a.updates[k] {
      UpdatesWithout(a.updates, k, UpdateOf(m, f));
    }
    assert UpdateOf(m, g) == a.updates[k];
    hide Good, Sound, Safe, Yields, FileUpdated, Recorded;
    if Recorded(a.mapper, f) { RecordedStays(m, a.mapper, g, f); } else { UnrecordedStays(m, a.mapper, g, f); }
  }

  // Every step keeps what is on its way sound; a safe file stays safe and is not
  // lost sight of.
  lemma StepKeeps(m: Setting, a: Agent, e: Event)
    requires Good(m) && Sound(m, a) && Possible(m, a, e)
    ensures Sound(m, Step(m, a, e))
    ensures forall f :: f in m.catalogue && Safe(m, a.mapper, f) && (e.FullSync? || Tracked(m, a, f)) ==>
      Safe(m, Step(m, a, e).mapper, f) && Tracked(m, Step(m, a, e), f)
  {
    hide Good, Sound, Safe, Tracked, Possible;
    match e
    case FullSync(_, _) => hide Step; SyncTracks(m, a, e);
    case PartialSync(_, _, _) => hide Step; SyncTracks(m, a, e);
    case Applying(k) =>
      ApplyIsPossible(m, a, k);
      ApplySound(m, a, k);
      hide Apply;
      forall f | f in m.catalogue && Safe(m, a.mapper, f) && Tracked(m, a, f)
        ensures Safe(m, Apply(a, k).mapper, f) && Tracked(m, Apply(a, k), f)
      {
        ApplyTracks(m, a, k, f);
      }
    case _ =>
      hide Step;
      MoveKeeps(m, a, e);
      forall f | f in m.catalogue && Safe(m, a.mapper, f) && Tracked(m, a, f)
        ensures Safe(m, Step(m, a, e).mapper, f) && Tracked(m, Step(m, a, e), f)
      {
        MoveTracks(m, a, e, f);
      }
  }

  lemma ApplyIsPossible(m: Setting, a: Agent, k: nat)
    requires Possible(m, a, Applying(k))
    ensures k < |a.updates|
  {
  }

  lemma SyncTracks(m: Setting, a: Agent, e: Event)
    requires Good(m) && Sound(m, a) && Possible(m, a, e) && (e.FullSync? || e.PartialSync?)
    ensures Sound(m, Step(m, a, e))
    ensures forall f :: f in m.catalogue && Safe(m, a.mapper, f) && (e.FullSync? || Tracked(m, a, f)) ==>
      Safe(m, Step(m, a, e).mapper, f) && Tracked(m, Step(m, a, e), f)
  {
    SyncMeans(m, a, e);
    var b := Step(m, a, e);
    hide Good, Sound, Possible, Step, Recorded, Shadowed, Pinned, Yields, D.AddKey;
    forall f | f in m.catalogue && Safe(m, a.mapper, f) && (e.FullSync? || Tracked(m, a, f)) ensures Tracked(m, b, f) {
      if e.FullSync? && !Recorded(a.mapper, f) { NamedIsQueued(m, a, e, f); }
    }
  }

  // --- Runs ---

  // b is where the agent may be after the events, having been at a.
  ghost predicate Steps(m: Setting, a: Agent, events: seq<Event>, b: Agent)
    decreases |events|
  {
    if events == [] then a == b
    else
      var (front, e) := (events[..|events|-1], events[|events|-1]);
      exists p :: Steps(m, a, front, p) && Possible(m, p, e) && b == Step(m, p, e)
  }

  predicate BeginsFull(events: seq<Event>) { events != [] && events[0].FullSync? }

  // A run begins with a full comparison.
  ghost predicate Run(m: Setting, start: Agent, events: seq<Event>, a: Agent) {
    BeginsFull(events) && Steps(m, start, events, a)
  }

  lemma {:induction false} RunKeeps(m: Setting, start: Agent, events: seq<Event>, a: Agent)
    requires Good(m) && Sound(m, start) && Run(m, start, events, a)
    ensures Sound(m, a)
    ensures forall f :: f in m.catalogue && Safe(m, start.mapper, f) ==> Safe(m, a.mapper, f) && Tracked(m, a, f)
    decreases |events|
  {
    hide Good, Sound, Safe, Tracked, Possible, Step;
    var (front, e) := (events[..|events|-1], events[|events|-1]);
    var p :| Steps(m, start, front, p) && Possible(m, p, e) && a == Step(m, p, e);
    if |events| > 1 { RunKeeps(m, start, front, p); }
    StepKeeps(m, p, e);
  }

  predicate Idle(a: Agent) {
    a.downloads.queue == [] && a.failures == [] && a.todo == [] && a.kept == [] && a.updates == []
  }

  // Recorded, or visibly given up.
  predicate Settled(a: Agent, f: Wanted) { Recorded(a.mapper, f) || ReqOf(f) in a.lost }

  lemma IdleIsSettled(m: Setting, a: Agent, f: Wanted)
    requires Tracked(m, a, f) && Idle(a)
    ensures Settled(a, f)
  {
    hide Recorded;
  }

  lemma StartSound(m: Setting, start: Agent)
    requires Idle(start) && start.downloads.keys == m.taken
    ensures Sound(m, start)
  {
  }

  // A safe file is recorded or given up at the end of every run.
  lemma SafeSettles(m: Setting, start: Agent, events: seq<Event>, a: Agent, f: Wanted)
    requires Good(m) && Sound(m, start) && f in m.catalogue && Safe(m, start.mapper, f)
    requires Run(m, start, events, a) && Idle(a)
    ensures Settled(a, f)
  {
    hide *;
    RunKeeps(m, start, events, a);
    IdleIsSettled(m, a, f);
  }
}
