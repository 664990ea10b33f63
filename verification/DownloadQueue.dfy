// The agent's download queue: requests are merged while an equal one is queued,
// failed ones are retried in rounds and given up after ten failures.
module DownloadQueue {
  import opened Wrappers
  import opened Paths

  const MAX_FAILED := 10

  datatype Request = FileRequest(ns: string, name: string, version: string) | PackageRequest(ns: string, digest: string)

  datatype Task = Task(req: Request, failed: nat)

  // strings.Join(task.Args, "/"): the digest is not among a package's arguments.
  function ArgsKey(req: Request): string {
    match req
    case FileRequest(ns, name, version) => Join3(ns, name, version)
    case PackageRequest(ns, digest) => ns
  }

  // The key under which an added request is remembered.
  function AddKey(req: Request): string {
    match req
    case FileRequest(ns, name, version) => Join3(ns, name, version)
    case PackageRequest(ns, digest) => ns + "/" + digest
  }

  datatype Downloads = Downloads(queue: seq<Request>, keys: set<string>)

  function Add(d: Downloads, req: Request): Downloads {
    if AddKey(req) in d.keys then d else Downloads(d.queue + [req], d.keys + {AddKey(req)})
  }

  function Pop(d: Downloads): Downloads
    requires d.queue != []
  {
    Downloads(d.queue[1..], d.keys - {ArgsKey(d.queue[0])})
  }

  datatype Op = Adding(req: Request) | Popping

  function Step(d: Downloads, op: Op): Downloads {
    match op
    case Adding(req) => Add(d, req)
    case Popping => if d.queue == [] then d else Pop(d)
  }

  function Run(ops: seq<Op>): Downloads {
    if ops == [] then Downloads([], {}) else Step(Run(ops[..|ops|-1]), ops[|ops|-1])
  }

  // --- Keys ---

  // What a key puts last, and what it puts before it.
  function Last(req: Request): string {
    match req case FileRequest(_, _, version) => version case PackageRequest(_, digest) => digest
  }

  function Front(req: Request): string {
    match req case FileRequest(ns, name, _) => ns + "/" + name case PackageRequest(ns, _) => ns
  }

  // Two requests have one key exactly when they agree in the last part and in
  // the text before it: a slash may stand in the namespace or in the name.
  lemma SameKeyIff(a: Request, b: Request)
    requires '/' !in Last(a) && '/' !in Last(b)
    ensures AddKey(a) == AddKey(b) <==> Last(a) == Last(b) && Front(a) == Front(b)
  {
    KeyParts(a);
    KeyParts(b);
    hide AddKey, Last, Front;
    if AddKey(a) == AddKey(b) { LastSegmentUnique(Front(a), Last(a), Front(b), Last(b)); }
  }

  lemma KeyParts(req: Request)
    ensures AddKey(req) == Front(req) + "/" + Last(req)
  {
  }

  predicate MixAt(ns: string, name: string, ns': string, name': string, version: string) {
    AddKey(FileRequest(ns, name, version)) == AddKey(FileRequest(ns', name', version))
  }

  // Files of two namespaces can have one key, for a version, exactly when one
  // namespace continues the other after a slash.
  lemma NamespacesMixIff(ns: string, ns': string, version: string)
    requires ns != ns' && '/' !in version
    ensures (exists name, name' :: MixAt(ns, name, ns', name', version)) <==> ns + "/" <= ns' || ns' + "/" <= ns
  {
    if name, name' :| MixAt(ns, name, ns', name', version) {
      SameKeyIff(FileRequest(ns, name, version), FileRequest(ns', name', version));
      Continues(ns, name, ns', name');
    }
    hide MixAt;
    if ns + "/" <= ns' { MixedName(ns, ns', version); }
    if ns' + "/" <= ns { MixedName(ns', ns, version); }
  }

  lemma MixedName(ns: string, ns': string, version: string)
    requires ns + "/" <= ns'
    ensures var rest := ns'[|ns| + 1..];
      MixAt(ns, rest + "/" + "x", ns', "x", version) && MixAt(ns', "x", ns, rest + "/" + "x", version)
  {
    var rest := ns'[|ns| + 1..];
    assert ns' == ns + "/" + rest;
    assert ns + "/" + (rest + "/" + "x") == ns' + "/" + "x";
  }

  lemma Continues(ns: string, name: string, ns': string, name': string)
    requires ns + "/" + name == ns' + "/" + name' && ns != ns'
    ensures ns + "/" <= ns' || ns' + "/" <= ns
  {
    var l, r := ns + "/" + name, ns' + "/" + name';
    assert ns == l[..|ns|] && ns' == r[..|ns'|] && ns + "/" == l[..|ns|+1] && ns' + "/" == r[..|ns'|+1];
    if |ns| < |ns'| {
      assert ns + "/" == ns'[..|ns|+1];
    } else if |ns'| < |ns| {
      assert ns' + "/" == ns[..|ns'|+1];
    }
  }

  // Requests whose keys tell them apart, and that a popped package does not
  // make the map forget.
  ghost predicate KeysApart(known: set<Request>) {
    && (forall a, b :: a in known && b in known && AddKey(a) == AddKey(b) ==> a == b)
    && (forall p, r :: p in known && r in known && p.PackageRequest? ==> ArgsKey(p) != AddKey(r))
  }

  // Namespaces, versions and digests are single path segments; a file name may
  // have several.
  predicate CleanRequest(req: Request) { '/' !in req.ns && '/' !in Last(req) }

  lemma AddKeyInjective(a: Request, b: Request)
    requires CleanRequest(a) && CleanRequest(b) && AddKey(a) == AddKey(b)
    ensures a == b
  {
    SameKeyIff(a, b);
    SlashInFront(a);
    SlashInFront(b);
    if a.FileRequest? && b.FileRequest? { FirstSegmentUnique(a.ns, a.name, b.ns, b.name); }
  }

  lemma SlashInFront(req: Request)
    requires CleanRequest(req)
    ensures '/' in Front(req) <==> req.FileRequest?
  {
    if req.FileRequest? { assert Front(req)[|req.ns|] == '/'; }
  }

  // A popped clean package request forgets a key that no request is ever added under.
  lemma PackageArgsForgetNothing(p: Request, req: Request)
    requires p.PackageRequest? && CleanRequest(p)
    ensures ArgsKey(p) != AddKey(req)
  {
    assert AddKey(req)[|req.ns|] == '/';
  }

  lemma CleanKeysApart(known: set<Request>)
    requires forall r :: r in known ==> CleanRequest(r)
    ensures KeysApart(known)
  {
    forall a, b | a in known && b in known && AddKey(a) == AddKey(b) ensures a == b { AddKeyInjective(a, b); }
    forall p, r | p in known && r in known && p.PackageRequest? ensures ArgsKey(p) != AddKey(r) {
      PackageArgsForgetNothing(p, r);
    }
  }

  // --- What the key set is, after any run ---

  function Adds(ops: seq<Op>): set<Request> { set k | 0 <= k < |ops| && ops[k].Adding? :: ops[k].req }

  // Keys: those of the queued file requests, and those of every package request
  // ever made. All requests are known ones.
  ghost predicate Exact(d: Downloads, packages: set<Request>, known: set<Request>) {
    && (forall i, j :: 0 <= i < j < |d.queue| ==> d.queue[i] != d.queue[j])
    && (forall r :: r in d.queue ==> r in known)
    && (forall r :: r in packages ==> r.PackageRequest? && r in known)
    && (forall r :: r in d.queue && r.PackageRequest? ==> r in packages)
    && (forall key :: key in d.keys ==>
          (exists r :: r in d.queue && r.FileRequest? && AddKey(r) == key) ||
            (exists r :: r in packages && AddKey(r) == key))
    && (forall r :: r in d.queue ==> AddKey(r) in d.keys)
    && (forall r :: r in packages ==> AddKey(r) in d.keys)
  }

  // A request is merged exactly when it is a file request still queued, or a
  // package request made before.
  lemma MergedIff(d: Downloads, packages: set<Request>, known: set<Request>, req: Request)
    requires Exact(d, packages, known) && KeysApart(known) && req in known
    ensures AddKey(req) in d.keys <==> if req.FileRequest? then req in d.queue else req in packages
  {
    hide AddKey, ArgsKey;
  }

  function Packages(packages: set<Request>, req: Request): set<Request> {
    if req.PackageRequest? then packages + {req} else packages
  }

  lemma AddExact(d: Downloads, packages: set<Request>, known: set<Request>, req: Request)
    requires Exact(d, packages, known) && KeysApart(known) && req in known
    ensures Exact(Add(d, req), Packages(packages, req), known)
  {
    MergedIff(d, packages, known, req);
    hide AddKey, ArgsKey;
    var after := Add(d, req);
    if AddKey(req) !in d.keys {
      assert after.queue[|d.queue|] == req && req in after.queue;
      assert req !in d.queue;
      forall key | key in after.keys
        ensures (exists r :: r in after.queue && r.FileRequest? && AddKey(r) == key) ||
          (exists r :: r in Packages(packages, req) && AddKey(r) == key)
      {
        if key != AddKey(req) {
          assert key in d.keys;
          if r :| r in d.queue && r.FileRequest? && AddKey(r) == key { assert r in after.queue; }
          else { var r :| r in packages && AddKey(r) == key; assert r in Packages(packages, req); }
        } else if req.PackageRequest? {
          assert req in Packages(packages, req);
        }
      }
    }
  }

  lemma PopExact(d: Downloads, packages: set<Request>, known: set<Request>)
    requires Exact(d, packages, known) && KeysApart(known) && d.queue != []
    ensures Exact(Pop(d), packages, known)
  {
    var first, after := d.queue[0], Pop(d);
    forall r | r in after.queue || r in packages ensures AddKey(r) in after.keys {
      PopKeepsKey(d, packages, known, r);
    }
    assert first.FileRequest? ==> ArgsKey(first) == AddKey(first);
    hide AddKey, ArgsKey, KeysApart;
    forall key | key in after.keys
      ensures (exists r :: r in after.queue && r.FileRequest? && AddKey(r) == key) ||
        (exists r :: r in packages && AddKey(r) == key)
    {
      assert key in d.keys;
      if r :| r in d.queue && r.FileRequest? && AddKey(r) == key {
        assert r != first;
        assert r in after.queue;
      }
    }
  }

  lemma PopKeepsKey(d: Downloads, packages: set<Request>, known: set<Request>, r: Request)
    requires Exact(d, packages, known) && KeysApart(known) && d.queue != [] && (r in d.queue[1..] || r in packages)
    ensures AddKey(r) in Pop(d).keys
  {
    var first := d.queue[0];
    assert AddKey(r) in d.keys && r in known && first in known;
    assert first.FileRequest? ==> ArgsKey(first) == AddKey(first);
    hide AddKey, ArgsKey;
  }

  lemma {:induction false} RunExact(ops: seq<Op>, known: set<Request>) returns (packages: set<Request>)
    requires KeysApart(known) && Adds(ops) <= known
    ensures Exact(Run(ops), packages, known) && packages == set r | r in Adds(ops) && r.PackageRequest?
    decreases |ops|
  {
    packages := {};
    if ops != [] {
      var front, op := ops[..|ops|-1], ops[|ops|-1];
      assert Adds(ops) == Adds(front) + if op.Adding? then {op.req}
        else {} by { AddsSnoc(front, op); assert front + [op] == ops; }
      packages := RunExact(front, known);
      hide Exact, KeysApart;
      match op
      case Adding(req) => AddExact(Run(front), packages, known, req); packages := Packages(packages, req);
      case Popping => if Run(front).queue != [] { PopExact(Run(front), packages, known); }
    }
  }

  lemma AddsSnoc(front: seq<Op>, op: Op)
    ensures Adds(front + [op]) == Adds(front) + if op.Adding? then {op.req} else {}
  {
    var ops := front + [op];
    assert ops[|front|] == op;
    forall r | r in Adds(front) ensures r in Adds(ops) {
      var k :| 0 <= k < |front| && front[k].Adding? && front[k].req == r;
      assert ops[k] == front[k];
    }
  }

  // After any run of requests whose keys tell them apart: a file request is
  // merged exactly when the very same request is still queued, so merging loses
  // nothing; a package request is merged exactly when it was ever made.
  lemma MergesOnly(ops: seq<Op>, req: Request)
    requires KeysApart(Adds(ops) + {req})
    ensures AddKey(req) in Run(ops).keys <==> if req.FileRequest? then req in Run(ops).queue else req in Adds(ops)
  {
    var packages := RunExact(ops, Adds(ops) + {req});
    MergedIff(Run(ops), packages, Adds(ops) + {req}, req);
  }

  predicate Merged(ops: seq<Op>, req: Request) { AddKey(req) in Run(ops).keys }

  // Merging file requests is sound, in every run over a set of them, if and only
  // if their keys tell them apart.
  lemma MergingSoundIff(known: set<Request>)
    requires forall r :: r in known ==> r.FileRequest?
    ensures (forall ops, req :: Adds(ops) <= known && req in known && Merged(ops, req) ==> req in Run(ops).queue)
       <==> (forall a, b :: a in known && b in known && AddKey(a) == AddKey(b) ==> a == b)
  {
    if forall a, b :: a in known && b in known && AddKey(a) == AddKey(b) ==> a == b {
      hide AddKey;
      forall ops, req | Adds(ops) <= known && req in known && Merged(ops, req) ensures req in Run(ops).queue {
        var packages := RunExact(ops, known);
        MergedIff(Run(ops), packages, known, req);
      }
    } else {
      var a, b :| a in known && b in known && AddKey(a) == AddKey(b) && a != b;
      hide AddKey;
      OneAdded(a);
      assert Merged([Adding(a)], b) && b !in Run([Adding(a)]).queue;
      assert Adds([Adding(a)]) <= known;
    }
  }

  lemma OneAdded(a: Request)
    ensures Run([Adding(a)]) == Downloads([a], {AddKey(a)})
  {
    hide AddKey;
    assert [Adding(a)][..0] == [];
    assert Run([Adding(a)]) == Downloads([] + [a], {} + {AddKey(a)});
  }

  // The intended invariant for file requests alone.
  lemma FileKeysAreQueued(ops: seq<Op>)
    requires KeysApart(Adds(ops)) && forall r :: r in Adds(ops) ==> r.FileRequest?
    ensures var d := Run(ops);
      && d.keys == (set r | r in d.queue :: AddKey(r))
      && forall i, j :: 0 <= i < j < |d.queue| ==> d.queue[i] != d.queue[j]
  {
    var packages := RunExact(ops, Adds(ops));
    assert packages == {};
    hide AddKey, ArgsKey, KeysApart;
    var d := Run(ops);
    forall key ensures key in d.keys <==> key in (set r | r in d.queue :: AddKey(r)) {}
  }

  // A package request that was downloaded, whatever came of it, is never taken
  // on again.
  lemma PackageNeverAgain(ops: seq<Op>, ns: string, digest: string)
    requires KeysApart(Adds(ops)) && PackageRequest(ns, digest) in Adds(ops)
    ensures Add(Run(ops), PackageRequest(ns, digest)) == Run(ops)
  {
    assert Adds(ops) + {PackageRequest(ns, digest)} == Adds(ops);
    MergesOnly(ops, PackageRequest(ns, digest));
  }

  // The requests taken on, and those taken off again, in order.
  function Accepted(ops: seq<Op>): seq<Request> {
    if ops == [] then []
    else
      var (front, op) := (ops[..|ops|-1], ops[|ops|-1]);
      Accepted(front) + if op.Adding? && AddKey(op.req) !in Run(front).keys then [op.req] else []
  }

  function Popped(ops: seq<Op>): seq<Request> {
    if ops == [] then []
    else
      var (front, op) := (ops[..|ops|-1], ops[|ops|-1]);
      Popped(front) + if op.Popping? && Run(front).queue != [] then [Run(front).queue[0]] else []
  }

  // First in, first out: what was taken off and what is queued are together what
  // was taken on, in order.
  lemma {:induction false} FirstInFirstOut(ops: seq<Op>)
    ensures Popped(ops) + Run(ops).queue == Accepted(ops)
    decreases |ops|
  {
    if ops != [] {
      var front := ops[..|ops|-1];
      FirstInFirstOut(front);
      hide AddKey, ArgsKey;
      var d := Run(front);
      if d.queue != [] { assert d.queue == [d.queue[0]] + d.queue[1..]; }
      assert Popped(front) + [] == Popped(front) && Accepted(front) + [] == Accepted(front);
    }
  }

  // For instance, a file of namespace "a/b" is merged with one of namespace "a".
  lemma SlashMergesDifferent()
    ensures Add(Run([Adding(FileRequest("a", "b/c", "1"))]), FileRequest("a/b", "c", "1")).queue ==
      [FileRequest("a", "b/c", "1")]
  {
    var a, b := FileRequest("a", "b/c", "1"), FileRequest("a/b", "c", "1");
    assert Front(a) == "a/b/c" == Front(b);
    SameKeyIff(a, b);
    OneAdded(a);
  }

  // --- Retrying ---

  // Which tasks a round attempts and which it keeps; ok[i] says whether an
  // attempt at tasks[i] succeeds.
  function Attempted(tasks: seq<Task>): seq<Task> {
    if tasks == [] then []
    else
      var front := Attempted(tasks[..|tasks|-1]);
      if ArgsKey(tasks[|tasks|-1].req) in KeysOf(front) then front else front + [tasks[|tasks|-1]]
  }

  function KeysOf(tasks: seq<Task>): set<string> { set i | 0 <= i < |tasks| :: ArgsKey(tasks[i].req) }

  function Retained(tasks: seq<Task>, ok: seq<bool>): seq<Task>
    requires |ok| == |tasks|
  {
    if tasks == [] then []
    else
      var n := |tasks| - 1;
      var front := Retained(tasks[..n], ok[..n]);
      if ArgsKey(tasks[n].req) in KeysOf(Attempted(tasks[..n])) || ok[n] || tasks[n].failed + 1 > MAX_FAILED then front
      else front + [tasks[n].(failed := tasks[n].failed + 1)]
  }

  ghost predicate DistinctKeys(tasks: seq<Task>) {
    forall i, j :: 0 <= i < j < |tasks| ==> ArgsKey(tasks[i].req) != ArgsKey(tasks[j].req)
  }

  // Every key is attempted, and only once.
  lemma {:induction false} AttemptsEachKeyOnce(tasks: seq<Task>)
    ensures DistinctKeys(Attempted(tasks)) && KeysOf(Attempted(tasks)) == KeysOf(tasks)
    ensures forall t :: t in Attempted(tasks) ==> t in tasks
    decreases |tasks|
  {
    if tasks != [] {
      var front, last := tasks[..|tasks|-1], tasks[|tasks|-1];
      AttemptsEachKeyOnce(front);
      KeysSnoc(front, last);
      KeysSnoc(Attempted(front), last);
      assert front + [last] == tasks;
    }
  }

  lemma KeysSnoc(front: seq<Task>, last: Task)
    ensures KeysOf(front + [last]) == KeysOf(front) + {ArgsKey(last.req)}
  {
    var tasks := front + [last];
    assert tasks[|front|] == last;
    forall key | key in KeysOf(front) ensures key in KeysOf(tasks) {
      var i :| 0 <= i < |front| && ArgsKey(front[i].req) == key;
      assert tasks[i] == front[i];
    }
  }

  // The first task of the round with this key.
  function FirstWith(tasks: seq<Task>, key: string): (k: nat)
    requires key in KeysOf(tasks)
    ensures k < |tasks| && ArgsKey(tasks[k].req) == key
    ensures forall i :: 0 <= i < k ==> ArgsKey(tasks[i].req) != key
  {
    if ArgsKey(tasks[0].req) == key then 0
    else
      assert key in KeysOf(tasks[1..]) by {
        var i :| 0 <= i < |tasks| && ArgsKey(tasks[i].req) == key;
        assert tasks[1..][i - 1] == tasks[i];
      }
      1 + FirstWith(tasks[1..], key)
  }

  // Of the tasks with one key, the first is attempted.
  lemma {:induction false} FirstIsAttempted(tasks: seq<Task>, k: nat)
    requires k < |tasks| && forall i :: 0 <= i < k ==> ArgsKey(tasks[i].req) != ArgsKey(tasks[k].req)
    ensures tasks[k] in Attempted(tasks)
    decreases |tasks|
  {
    var front := tasks[..|tasks|-1];
    if k < |front| {
      FirstIsAttempted(front, k);
    } else {
      AttemptsEachKeyOnce(front);
    }
  }

  predicate IsAttempted(tasks: seq<Task>, req: Request) { exists t :: t in Attempted(tasks) && t.req == req }

  // A failed request is attempted in its round exactly when the first task of
  // the round with its key carries the request itself.
  lemma AttemptedIffFirst(tasks: seq<Task>, t: Task)
    requires t in tasks
    ensures ArgsKey(t.req) in KeysOf(tasks)
    ensures IsAttempted(tasks, t.req) <==> tasks[FirstWith(tasks, ArgsKey(t.req))].req == t.req
  {
    var key := ArgsKey(t.req);
    var i :| 0 <= i < |tasks| && tasks[i] == t;
    assert key in KeysOf(tasks);
    var k := FirstWith(tasks, key);
    FirstIsAttempted(tasks, k);
    AttemptsEachKeyOnce(tasks);
    hide Attempted, KeysOf, ArgsKey, FirstWith;
    if IsAttempted(tasks, t.req) {
      var u :| u in Attempted(tasks) && u.req == t.req;
      assert u == tasks[k] by { SameKeySameTask(Attempted(tasks), u, tasks[k]); }
    }
  }

  lemma SameKeySameTask(tasks: seq<Task>, u: Task, v: Task)
    requires DistinctKeys(tasks) && u in tasks && v in tasks && ArgsKey(u.req) == ArgsKey(v.req)
    ensures u == v
  {
  }

  // The k-th task is for another digest of the package, and no task before it is
  // for the request itself.
  predicate OtherDigestBefore(tasks: seq<Task>, k: nat, req: Request)
    requires k < |tasks|
  {
    && req.PackageRequest? && tasks[k].req.PackageRequest? && tasks[k].req.ns == req.ns && tasks[k].req != req
    && forall i :: 0 <= i < k ==> tasks[i].req != req
  }

  // With clean requests, what a round drops without an attempt is exactly the
  // package requests that have a task of their namespace with another digest
  // before every task of their own.
  lemma DroppedIffOtherDigest(tasks: seq<Task>, t: Task)
    requires t in tasks && forall u :: u in tasks ==> CleanRequest(u.req)
    ensures !IsAttempted(tasks, t.req) <==> exists k :: 0 <= k < |tasks| && OtherDigestBefore(tasks, k, t.req)
  {
    AttemptedIffFirst(tasks, t);
    var k := FirstWith(tasks, ArgsKey(t.req));
    forall u | u in tasks
      ensures ArgsKey(u.req) == ArgsKey(t.req) <==>
        u.req == t.req || (u.req.PackageRequest? && t.req.PackageRequest? && u.req.ns == t.req.ns)
    {
      SameArgsIff(u.req, t.req);
    }
    hide ArgsKey, Attempted, CleanRequest, IsAttempted;
    assert tasks[k] in tasks;
    if tasks[k].req != t.req {
      forall i | 0 <= i < k ensures tasks[i].req != t.req { assert tasks[i] in tasks; }
      assert OtherDigestBefore(tasks, k, t.req);
    }
    if j :| 0 <= j < |tasks| && OtherDigestBefore(tasks, j, t.req) {
      assert tasks[j] in tasks;
      assert k <= j;
    }
  }

  lemma SameArgsIff(a: Request, b: Request)
    requires CleanRequest(a) && CleanRequest(b)
    ensures ArgsKey(a) == ArgsKey(b) <==> a == b || (a.PackageRequest? && b.PackageRequest? && a.ns == b.ns)
  {
    if a.FileRequest? && b.FileRequest? && ArgsKey(a) == ArgsKey(b) { AddKeyInjective(a, b); }
    if a.FileRequest? && b.PackageRequest? { PackageArgsForgetNothing(b, a); }
    if a.PackageRequest? && b.FileRequest? { PackageArgsForgetNothing(a, b); }
  }

  // File requests whose keys tell them apart are all attempted, merged or not.
  lemma MergedFileWasAttempted(tasks: seq<Task>, t: Task, known: set<Request>)
    requires t in tasks && KeysApart(known)
    requires forall u :: u in tasks ==> u.req.FileRequest? && u.req in known
    ensures IsAttempted(tasks, t.req)
  {
    AttemptedIffFirst(tasks, t);
    var first := tasks[FirstWith(tasks, ArgsKey(t.req))];
    assert first in tasks;
    assert ArgsKey(first.req) == AddKey(first.req) && ArgsKey(t.req) == AddKey(t.req);
  }

  // Failure counts between lo and ten.
  ghost predicate Counted(tasks: seq<Task>, lo: nat) {
    forall i :: 0 <= i < |tasks| ==> lo <= tasks[i].failed <= 10
  }

  lemma {:induction false} RetainedIsSound(tasks: seq<Task>, ok: seq<bool>, lo: nat)
    requires |ok| == |tasks| && Counted(tasks, lo)
    ensures DistinctKeys(Retained(tasks, ok)) && KeysOf(Retained(tasks, ok)) <= KeysOf(Attempted(tasks))
    ensures Counted(Retained(tasks, ok), lo + 1)
    decreases |tasks|
  {
    if tasks != [] {
      var n := |tasks| - 1;
      RetainedIsSound(tasks[..n], ok[..n], lo);
      AttemptsEachKeyOnce(tasks[..n]);
      AttemptsEachKeyOnce(tasks);
      KeysSnoc(Retained(tasks[..n], ok[..n]), tasks[n].(failed := tasks[n].failed + 1));
      KeysSnoc(Attempted(tasks[..n]), tasks[n]);
    }
  }

  // One round with the failures that arrive while it runs.
  datatype Round = Round(ok: seq<bool>, arrivals: seq<Task>)

  predicate Fits(tasks: seq<Task>, r: Round) { |r.ok| == |tasks| }

  function AfterRounds(tasks: seq<Task>, rounds: seq<Round>): Option<seq<Task>> {
    if rounds == [] then Some(tasks)
    else
      var before := AfterRounds(tasks, rounds[..|rounds|-1]);
      if before.None? || !Fits(before.value, rounds[|rounds|-1]) then None
      else Some(rounds[|rounds|-1].arrivals + Retained(before.value, rounds[|rounds|-1].ok))
  }

  // Failure counts stay between 1 and 10 in every round.
  lemma {:induction false} CountsStay(tasks: seq<Task>, rounds: seq<Round>)
    requires Counted(tasks, 1) && forall k :: 0 <= k < |rounds| ==> Counted(rounds[k].arrivals, 1)
    ensures var after := AfterRounds(tasks, rounds); after.Some? ==> Counted(after.value, 1)
    decreases |rounds|
  {
    if rounds != [] && AfterRounds(tasks, rounds).Some? {
      var front, last := rounds[..|rounds|-1], rounds[|rounds|-1];
      CountsStay(tasks, front);
      var before := AfterRounds(tasks, front).value;
      RetainedIsSound(before, last.ok, 1);
      CountedConcat(last.arrivals, Retained(before, last.ok), 1);
    }
  }

  lemma {:induction false} CountsGrow(tasks: seq<Task>, rounds: seq<Round>)
    requires Counted(tasks, 1) && forall k :: 0 <= k < |rounds| ==> rounds[k].arrivals == []
    ensures var after := AfterRounds(tasks, rounds); after.Some? ==> Counted(after.value, 1 + |rounds|)
    decreases |rounds|
  {
    if rounds != [] && AfterRounds(tasks, rounds).Some? {
      var front, last := rounds[..|rounds|-1], rounds[|rounds|-1];
      CountsGrow(tasks, front);
      var before := AfterRounds(tasks, front).value;
      RetainedIsSound(before, last.ok, |rounds|);
      assert last.arrivals + Retained(before, last.ok) == Retained(before, last.ok);
    }
  }

  lemma CountedConcat(a: seq<Task>, b: seq<Task>, lo: nat)
    requires Counted(a, lo) && Counted(b, lo + 1)
    ensures Counted(a + b, lo)
  {
  }

  // Without new failures the queue is empty after ten rounds, whatever happens.
  lemma TenRoundsEmpty(tasks: seq<Task>, rounds: seq<Round>)
    requires Counted(tasks, 1) && |rounds| >= 10 && forall k :: 0 <= k < |rounds| ==> rounds[k].arrivals == []
    ensures var after := AfterRounds(tasks, rounds); after.Some? ==> after.value == []
  {
    CountsGrow(tasks, rounds);
    if AfterRounds(tasks, rounds).Some? { NoneAbove(AfterRounds(tasks, rounds).value, 1 + |rounds|); }
  }

  lemma NoneAbove(tasks: seq<Task>, lo: nat)
    requires Counted(tasks, lo)
    ensures lo > 10 ==> tasks == []
  {
    if tasks != [] { assert lo <= tasks[0].failed; }
  }

  predicate AllFail(rounds: seq<Round>) { forall k :: 0 <= k < |rounds| ==> rounds[k] == Round([false], []) }

  // Nine are not enough.
  lemma {:induction false} AlwaysFailing(req: Request, rounds: seq<Round>)
    requires AllFail(rounds) && |rounds| <= 9
    ensures AfterRounds([Task(req, 1)], rounds) == Some([Task(req, 1 + |rounds|)])
    decreases |rounds|
  {
    if rounds != [] {
      var (front, last) := (rounds[..|rounds|-1], rounds[|rounds|-1]);
      AlwaysFailing(req, front);
      assert last == Round([false], []);
      hide AllFail, Retained;
      RetryFails(Task(req, |rounds|));
      var after: seq<Task> := [] + [Task(req, 1 + |rounds|)];
      assert after == [Task(req, 1 + |rounds|)];
    }
  }

  lemma RetryFails(t: Task)
    requires t.failed < 10
    ensures Retained([t], [false]) == [t.(failed := t.failed + 1)]
  {
    assert [t][..0] == [] && [false][..0] == [] && Attempted([]) == [];
    assert Retained([t], [false]) == [] + [t.(failed := t.failed + 1)];
  }

  lemma EmptyRound()
    ensures Attempted([]) == [] && Retained([], []) == [] && KeysOf([]) == {}
  {
  }

  lemma RoundSnoc(tasks: seq<Task>, ok: seq<bool>, i: nat)
    requires |ok| == |tasks| && i < |tasks|
    ensures Attempted(tasks[..i+1]) ==
      Attempted(tasks[..i]) + if ArgsKey(tasks[i].req) in KeysOf(Attempted(tasks[..i])) then [] else [tasks[i]]
    ensures Retained(tasks[..i+1], ok[..i+1]) == Retained(tasks[..i], ok[..i]) +
      if ArgsKey(tasks[i].req) in KeysOf(Attempted(tasks[..i])) || ok[i] || tasks[i].failed + 1 > MAX_FAILED then []
      else [tasks[i].(failed := tasks[i].failed + 1)]
  {
    assert tasks[..i+1][..i] == tasks[..i] && ok[..i+1][..i] == ok[..i];
  }

  // --- The manager as an object ---

  class VersionManager {
    var downloadQueue: seq<Request>
    var downloadMap: set<string>
    var failureQueue: seq<Task>

    function State(): Downloads reads this { Downloads(downloadQueue, downloadMap) }

    constructor ()
      ensures State() == Run([]) && failureQueue == []
    {
      downloadQueue, downloadMap, failureQueue := [], {}, [];
    }

    method AddDownloadTask(req: Request)
      modifies this`downloadQueue, this`downloadMap
      ensures State() == Add(old(State()), req)
    {
      var key := AddKey(req);
      if key in downloadMap { return; }
      downloadMap := downloadMap + {key};
      downloadQueue := downloadQueue + [req];
    }

    method PopDownloadTask() returns (req: Request)
      requires downloadQueue != []
      modifies this`downloadQueue, this`downloadMap
      ensures State() == Pop(old(State())) && req == old(downloadQueue[0])
    {
      req := downloadQueue[0];
      downloadQueue := downloadQueue[1..];
      downloadMap := downloadMap - {ArgsKey(req)};
    }

    // One turn of the download loop.
    method Download(ok: bool)
      requires downloadQueue != []
      modifies this
      ensures State() == Pop(old(State()))
      ensures failureQueue == old(failureQueue) + if ok then [] else [Task(old(downloadQueue[0]), 1)]
    {
      var req := PopDownloadTask();
      if !ok { failureQueue := failureQueue + [Task(req, 1)]; }
    }

    // One turn of the retry loop. ok[i] is the outcome of an attempt at the i-th
    // failed task; arrivals are added to the queue while the round runs.
    method Retry(ok: seq<bool>, arrivals: seq<Task>) returns (attempted: seq<Task>)
      requires |ok| == |failureQueue|
      modifies this`failureQueue
      ensures attempted == Attempted(old(failureQueue))
      ensures failureQueue == arrivals + Retained(old(failureQueue), ok)
    {
      var tasks := failureQueue;
      failureQueue := arrivals;
      var failuredTasks, doneFailureMap := [], {};
      attempted := [];
      EmptyRound();
      hide Attempted, Retained, KeysOf;
      for i := 0 to |tasks|
        invariant attempted == Attempted(tasks[..i]) && doneFailureMap == KeysOf(attempted)
        invariant failuredTasks == Retained(tasks[..i], ok[..i]) && failureQueue == arrivals
      {
        var t := tasks[i];
        var key := ArgsKey(t.req);
        RoundSnoc(tasks, ok, i);
        if key !in doneFailureMap {
          KeysSnoc(attempted, t);
          attempted := attempted + [t];
          doneFailureMap := doneFailureMap + {key};
          if !ok[i] && t.failed + 1 <= MAX_FAILED { failuredTasks := failuredTasks + [t.(failed := t.failed + 1)]; }
        }
      }
      assert tasks[..|tasks|] == tasks && ok[..|tasks|] == ok;
      failureQueue := failureQueue + failuredTasks;
    }
  }
}
