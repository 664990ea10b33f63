// Pushing updates to connected applications: which connection belongs to which
// application, which application has asked for which file, and the queue of
// notifications that failed.
module Syncer {
  import opened Wrappers
  import opened Paths
  import F = Folders

  type Conn = string
  type AppId = string

  // files are full names: namespace, slash, file name.
  datatype App = App(id: AppId, namespaces: seq<string>, files: set<string>)

  datatype Task = Task(conn: Conn, ns: string, files: seq<string>)

  datatype Scheduled = Scheduled(task: Task, next: int, failed: nat)

  datatype Index = Index(apps: map<AppId, seq<Conn>>, conn2App: map<Conn, App>,
                         byFile: map<string, set<AppId>>, byNs: map<string, set<AppId>>)

  // --- Registering and cancelling ---

  function Insert(index: map<string, set<AppId>>, name: string, id: AppId): map<string, set<AppId>> {
    index[name := (if name in index then index[name] else {}) + {id}]
  }

  function InsertSet(index: map<string, set<AppId>>, names: set<string>, id: AppId): map<string, set<AppId>> {
    map name | name in index.Keys + names ::
      (if name in index then index[name] else {}) + (if name in names then {id} else {})
  }

  lemma InsertNone(index: map<string, set<AppId>>, id: AppId)
    ensures InsertSet(index, {}, id) == index
  {
    assert forall name :: name in index ==> index[name] + {} == index[name];
  }

  lemma InsertOneMore(index: map<string, set<AppId>>, names: set<string>, name: string, id: AppId)
    ensures InsertSet(index, names + {name}, id) == Insert(InsertSet(index, names, id), name, id)
  {
    var (a, b) := (InsertSet(index, names + {name}, id), Insert(InsertSet(index, names, id), name, id));
    assert a.Keys == b.Keys;
    forall n | n in a ensures a[n] == b[n] {}
  }

  function InsertAll(index: map<string, set<AppId>>, names: seq<string>, id: AppId): map<string, set<AppId>> {
    if names == [] then index else Insert(InsertAll(index, names[..|names|-1], id), names[|names|-1], id)
  }

  function ConnsOf(i: Index, id: AppId): seq<Conn> { if id in i.apps then i.apps[id] else [] }

  function Register(i: Index, app: App, conn: Conn): Index {
    Index(i.apps[app.id := ConnsOf(i, app.id) + [conn]], i.conn2App[conn := app],
          InsertSet(i.byFile, app.files, app.id), InsertAll(i.byNs, app.namespaces, app.id))
  }

  function FullName(ns: string, file: string): string { ns + "/" + file }

  // A connection that is not registered makes the program crash.
  function RegisterFile(i: Index, conn: Conn, ns: string, file: string): Option<Index> {
    if conn !in i.conn2App then None
    else
      var app := i.conn2App[conn];
      Some(i.(byFile := Insert(i.byFile, FullName(ns, file), app.id),
              conn2App := i.conn2App[conn := app.(files := app.files + {FullName(ns, file)})]))
  }

  function RemoveFirst(s: seq<Conn>, x: Conn): seq<Conn> {
    if s == [] then [] else if s[0] == x then s[1..] else [s[0]] + RemoveFirst(s[1..], x)
  }

  function Cancel(i: Index, conn: Conn): Index {
    if conn !in i.conn2App then i
    else
      var id := i.conn2App[conn].id;
      i.(conn2App := i.conn2App - {conn}, apps := if id in i.apps then i.apps[id := RemoveFirst(i.apps[id], conn)]
        else i.apps)
  }

  // Only the first queued notification of a cancelled connection goes.
  function CancelQueue(queue: seq<Scheduled>, conn: Conn): seq<Scheduled> {
    if queue == [] then []
    else if queue[0].task.conn == conn then queue[1..]
    else [queue[0]] + CancelQueue(queue[1..], conn)
  }

  // --- apps and conn2App are one relation ---

  ghost predicate NoDuplicates(s: seq<Conn>) { forall i, j :: 0 <= i < j < |s| ==> s[i] != s[j] }

  ghost predicate Consistent(i: Index) {
    && (forall id :: id in i.apps ==> NoDuplicates(i.apps[id]))
    && (forall id, c :: Listed(i, id, c) <==> Owns(i, id, c))
  }

  predicate Listed(i: Index, id: AppId, c: Conn) { c in ConnsOf(i, id) }

  predicate Owns(i: Index, id: AppId, c: Conn) { c in i.conn2App && i.conn2App[c].id == id }

  lemma InUseBreaks(i: Index, app: App, conn: Conn)
    requires Consistent(i) && conn in i.conn2App
    ensures !Consistent(Register(i, app, conn))
  {
    var after := Register(i, app, conn);
    var id := i.conn2App[conn].id;
    assert Listed(i, id, conn) && Owns(i, id, conn);
    if id == app.id {
      var k :| 0 <= k < |ConnsOf(i, id)| && ConnsOf(i, id)[k] == conn;
      var conns := after.apps[id];
      assert conns[k] == conns[|conns| - 1];
      assert !NoDuplicates(conns);
    } else {
      assert ConnsOf(after, id) == ConnsOf(i, id);
      assert Listed(after, id, conn) && !Owns(after, id, conn);
    }
  }

  lemma FreshKeeps(i: Index, app: App, conn: Conn)
    requires Consistent(i) && conn !in i.conn2App
    ensures Consistent(Register(i, app, conn))
  {
    var after := Register(i, app, conn);
    assert !Listed(i, app.id, conn);
    forall id, c ensures Listed(after, id, c) <==> Owns(after, id, c) {
      assert Listed(i, id, c) <==> Owns(i, id, c);
    }
  }

  // Registering keeps the two in step exactly when the connection is not in use.
  lemma RegisterConsistentIff(i: Index, app: App, conn: Conn)
    requires Consistent(i)
    ensures Consistent(Register(i, app, conn)) <==> conn !in i.conn2App
  {
    if conn in i.conn2App { InUseBreaks(i, app, conn); } else { FreshKeeps(i, app, conn); }
  }

  lemma SameOwners(i: Index, after: Index)
    requires Consistent(i) && after.apps == i.apps
    requires forall id, c :: Owns(after, id, c) <==> Owns(i, id, c)
    ensures Consistent(after)
  {
    assert forall id, c :: Listed(after, id, c) <==> Listed(i, id, c);
  }

  lemma RegisterFileConsistent(i: Index, conn: Conn, ns: string, file: string)
    requires Consistent(i) && conn in i.conn2App
    ensures Consistent(RegisterFile(i, conn, ns, file).value)
  {
    hide Consistent;
    SameOwners(i, RegisterFile(i, conn, ns, file).value);
  }

  lemma {:induction false} RemoveFirstMembers(s: seq<Conn>, x: Conn)
    requires NoDuplicates(s)
    ensures NoDuplicates(RemoveFirst(s, x)) && forall y :: y in RemoveFirst(s, x) <==> y in s && y != x
  {
    if s != [] {
      var rest := s[1..];
      assert s == [s[0]] + rest;
      RemoveFirstMembers(rest, x);
      assert s[0] !in rest by { assert forall k :: 0 <= k < |rest| ==> rest[k] == s[k + 1]; }
      ConsNoDuplicates(s[0], RemoveFirst(rest, x));
    }
  }

  lemma ConsNoDuplicates(x: Conn, s: seq<Conn>)
    requires NoDuplicates(s) && x !in s
    ensures NoDuplicates([x] + s)
  {
  }

  lemma CancelConsistent(i: Index, conn: Conn)
    requires Consistent(i)
    ensures Consistent(Cancel(i, conn)) && conn !in Cancel(i, conn).conn2App
  {
    var after := Cancel(i, conn);
    if conn in i.conn2App {
      var own := i.conn2App[conn].id;
      RemoveFirstMembers(ConnsOf(i, own), conn);
      forall id, c ensures Listed(after, id, c) <==> Owns(after, id, c) {
        assert Listed(i, id, c) <==> Owns(i, id, c);
      }
    }
  }

  // --- Runs ---

  datatype Op = Registering(app: App, conn: Conn) | RegisteringFile(conn: Conn, ns: string,
    file: string) | Cancelling(conn: Conn)

  function Step(i: Index, op: Op): Option<Index> {
    match op
    case Registering(app, conn) => Some(Register(i, app, conn))
    case RegisteringFile(conn, ns, file) => RegisterFile(i, conn, ns, file)
    case Cancelling(conn) => Some(Cancel(i, conn))
  }

  const EMPTY := Index(map[], map[], map[], map[])

  // None once the program has crashed.
  function Run(ops: seq<Op>): Option<Index> {
    if ops == [] then Some(EMPTY)
    else
      var before := Run(ops[..|ops|-1]);
      if before.None? then None else Step(before.value, ops[|ops|-1])
  }

  // Every registration uses a connection that is not live at that moment.
  ghost predicate FreshConns(ops: seq<Op>)
    decreases |ops|
  {
    ops == [] ||
      var (front, op) := (ops[..|ops|-1], ops[|ops|-1]);
      FreshConns(front) && (op.Registering? && Run(front).Some? ==> op.conn !in Run(front).value.conn2App)
  }

  // Whether op asks for the file on behalf of the application, given the state before it.
  predicate Asks(i: Index, op: Op, name: string, id: AppId) {
    match op
    case Registering(app, conn) => app.id == id && name in app.files
    case RegisteringFile(conn, ns, file) => conn in i.conn2App && i.conn2App[conn].id == id &&
      FullName(ns, file) == name
    case Cancelling(_) => false
  }

  // The application has asked for the file at some point of the run.
  predicate Asked(ops: seq<Op>, name: string, id: AppId)
    decreases |ops|
  {
    ops != [] &&
      var (front, op) := (ops[..|ops|-1], ops[|ops|-1]);
      Asked(front, name, id) || (Run(front).Some? && Asks(Run(front).value, op, name, id))
  }

  predicate Subscribed(i: Index, name: string, id: AppId) { name in i.byFile && id in i.byFile[name] }

  lemma StepSubscribes(i: Index, op: Op, name: string, id: AppId)
    requires Step(i, op).Some?
    ensures Subscribed(Step(i, op).value, name, id) <==> Subscribed(i, name, id) || Asks(i, op, name, id)
  {
  }

  // The file index is the subscription history: nothing is missing, nothing is
  // made up, and cancelling does not forget.
  lemma {:induction false} IndexIsHistory(ops: seq<Op>, name: string, id: AppId)
    requires Run(ops).Some?
    ensures Subscribed(Run(ops).value, name, id) <==> Asked(ops, name, id)
    decreases |ops|
  {
    if ops != [] {
      hide Subscribed, Step, Asks;
      var front, op := ops[..|ops|-1], ops[|ops|-1];
      IndexIsHistory(front, name, id);
      StepSubscribes(Run(front).value, op, name, id);
    } else {
      assert !Subscribed(EMPTY, name, id);
    }
  }

  lemma {:induction false} RunConsistent(ops: seq<Op>)
    requires FreshConns(ops) && Run(ops).Some?
    ensures Consistent(Run(ops).value)
    decreases |ops|
  {
    if ops != [] {
      hide Consistent, Register, RegisterFile, Cancel;
      var front, op := ops[..|ops|-1], ops[|ops|-1];
      RunConsistent(front);
      match op
      case Registering(app, conn) => RegisterConsistentIff(Run(front).value, app, conn);
      case RegisteringFile(conn, ns, file) =>
        LiveConn(Run(front).value, conn, ns, file);
        RegisterFileConsistent(Run(front).value, conn, ns, file);
      case Cancelling(conn) => CancelConsistent(Run(front).value, conn);
    } else {
      assert Consistent(EMPTY);
    }
  }

  lemma LiveConn(i: Index, conn: Conn, ns: string, file: string)
    ensures RegisterFile(i, conn, ns, file).Some? <==> conn in i.conn2App
  {
  }

  // Whether op registers an application with the namespace.
  predicate AsksNs(op: Op, ns: string, id: AppId) { op.Registering? && op.app.id == id && ns in op.app.namespaces }

  predicate AskedNs(ops: seq<Op>, ns: string, id: AppId) { exists k :: 0 <= k < |ops| && AsksNs(ops[k], ns, id) }

  predicate SubscribedNs(i: Index, ns: string, id: AppId) { ns in i.byNs && id in i.byNs[ns] }

  lemma {:induction false} InsertAllMeans(index: map<string, set<AppId>>, names: seq<string>, id: AppId,
                                          name: string, other: AppId)
    ensures var after := InsertAll(index, names, id);
      name in after && other in after[name] <==>
        (name in index && other in index[name]) || (name in names && other == id)
    decreases |names|
  {
    if names != [] {
      InsertAllMeans(index, names[..|names|-1], id, name, other);
      assert names == names[..|names|-1] + [names[|names|-1]];
    }
  }

  // So is the namespace index, whose applications registered with the namespace.
  lemma {:induction false} NsIndexIsHistory(ops: seq<Op>, ns: string, id: AppId)
    requires Run(ops).Some?
    ensures SubscribedNs(Run(ops).value, ns, id) <==> AskedNs(ops, ns, id)
    decreases |ops|
  {
    if ops != [] {
      var (front, op) := (ops[..|ops|-1], ops[|ops|-1]);
      NsIndexIsHistory(front, ns, id);
      assert ops == front + [op] && ops[|front|] == op;
      forall k | 0 <= k < |front| ensures ops[k] == front[k] {}
      if op.Registering? { InsertAllMeans(Run(front).value.byNs, op.app.namespaces, op.app.id, ns, id); }
      assert AskedNs(ops, ns, id) <==> AskedNs(front, ns, id) || AsksNs(op, ns, id);
      hide AskedNs, AsksNs, InsertAll;
    }
  }

  // --- What an application holds ---

  // The files a live connection's application has: those it registered with and
  // those registered since, on that connection.
  predicate HoldsFile(i: Index, c: Conn, name: string) { c in i.conn2App && name in i.conn2App[c].files }

  predicate Brings(op: Op, c: Conn, name: string) {
    match op
    case Registering(app, conn) => conn == c && name in app.files
    case RegisteringFile(conn, ns, file) => conn == c && name == FullName(ns, file)
    case Cancelling(_) => false
  }

  predicate Restarts(op: Op, c: Conn) { !op.RegisteringFile? && op.conn == c }

  // The k-th operation brought the file to the connection, which has neither been
  // registered again nor cancelled since.
  predicate BroughtAt(ops: seq<Op>, c: Conn, name: string, k: nat) {
    k < |ops| && Brings(ops[k], c, name) && forall j :: k < j < |ops| ==> !Restarts(ops[j], c)
  }

  lemma BroughtMore(front: seq<Op>, op: Op, c: Conn, name: string)
    ensures (exists k: nat :: BroughtAt(front + [op], c, name, k)) <==>
      Brings(op, c, name) || (!Restarts(op, c) && exists k: nat :: BroughtAt(front, c, name, k))
  {
    hide Brings, Restarts;
    var ops := front + [op];
    assert ops[|front|] == op && forall k :: 0 <= k < |front| ==> ops[k] == front[k];
    if Brings(op, c, name) { assert BroughtAt(ops, c, name, |front|); }
    if k: nat :| BroughtAt(ops, c, name, k) {
      if k < |front| { assert BroughtAt(front, c, name, k) && !Restarts(ops[|front|], c); }
    }
    if k: nat :| BroughtAt(front, c, name, k) {
      if !Restarts(op, c) { assert BroughtAt(ops, c, name, k); }
    }
  }

  // In every run: the files that a live connection's application has are those
  // brought to the connection since its last registration.
  lemma {:induction false} FilesAreHistory(ops: seq<Op>, c: Conn, name: string)
    requires Run(ops).Some?
    ensures HoldsFile(Run(ops).value, c, name) <==> exists k: nat :: BroughtAt(ops, c, name, k)
    decreases |ops|
  {
    if ops != [] {
      var (front, op) := (ops[..|ops|-1], ops[|ops|-1]);
      assert front + [op] == ops;
      FilesAreHistory(front, c, name);
      BroughtMore(front, op, c, name);
      StepHolds(Run(front).value, op, c, name);
      hide BroughtAt, HoldsFile, Step;
    } else {
      assert !HoldsFile(EMPTY, c, name);
    }
  }

  lemma StepHolds(i: Index, op: Op, c: Conn, name: string)
    requires Step(i, op).Some?
    ensures HoldsFile(Step(i, op).value, c, name) <==>
      Brings(op, c, name) || (!Restarts(op, c) && HoldsFile(i, c, name))
  {
  }

  // --- Notifying ---

  // The updated files that an application has asked for, in the order given.
  function FilesFor(i: Index, ns: string, files: seq<string>, id: AppId): seq<string> {
    if files == [] then []
    else
      var last := files[|files|-1];
      FilesFor(i, ns, files[..|files|-1], id) + if Subscribed(i, Join([ns, last]), id) then [last] else []
  }

  // What NotifyUpdate sends: one task for every live connection whose application
  // has asked for some of the files, with exactly those, and nothing else.
  ghost predicate NotifiesExactly(i: Index, ns: string, files: seq<string>, sent: seq<Task>) {
    && (forall j, k :: 0 <= j < k < |sent| ==> sent[j].conn != sent[k].conn)
    && (forall t :: t in sent ==>
      t.conn in i.conn2App && t.ns == ns && t.files == FilesFor(i, ns, files, i.conn2App[t.conn].id) != [])
    && (forall c :: c in i.conn2App && FilesFor(i, ns, files, i.conn2App[c].id) != [] ==>
      exists t :: t in sent && t.conn == c)
  }

  lemma {:induction false} FilesForMembers(i: Index, ns: string, files: seq<string>, id: AppId, file: string)
    ensures file in FilesFor(i, ns, files, id) <==> file in files && Subscribed(i, Join([ns, file]), id)
    decreases |files|
  {
    if files != [] {
      FilesForMembers(i, ns, files[..|files|-1], id, file);
      assert files == files[..|files|-1] + [files[|files|-1]];
    }
  }

  // Files are gone through in order: each one is there or not by itself.
  lemma {:induction false} FilesForSplits(i: Index, ns: string, a: seq<string>, b: seq<string>, id: AppId)
    ensures FilesFor(i, ns, a + b, id) == FilesFor(i, ns, a, id) + FilesFor(i, ns, b, id)
    ensures |a| == 1 ==> FilesFor(i, ns, a, id) == if Subscribed(i, Join([ns, a[0]]), id) then a else []
    decreases |b|
  {
    hide Subscribed, Join;
    if |a| == 1 { assert a[..0] == [] && FilesFor(i, ns, [], id) == [] && [a[0]] == a; }
    if b == [] {
      assert a + b == a;
    } else {
      assert (a + b)[..|a + b|-1] == a + b[..|b|-1];
      FilesForSplits(i, ns, a, b[..|b|-1], id);
    }
  }

  // A clean name is looked up under the name it was registered with.
  lemma CleanNamesMatch(ns: string, file: string)
    requires AllPlain(Split(ns)) && AllPlain(Split(file))
    ensures Join([ns, file]) == FullName(ns, file)
  {
    CleanPlain(ns);
    CleanPlain(file);
    AllNonEmpty([ns, file]);
    assert [ns, file][1..] == [file] && Glue([file]) == file;
    assert Glue([ns, file]) == FullName(ns, file);
    SplitAppend(ns, file);
    assert ns + "/" + file == FullName(ns, file);
    CleanPlain(FullName(ns, file));
  }

  // Once ".." is at the front it stays there; otherwise there is none.
  predicate DotsFirst(segs: seq<string>) { forall i, j :: 0 <= i < j < |segs| && segs[j] == ".." ==> segs[i] == ".." }

  lemma {:induction false} PlainOrDots(done: seq<string>, todo: seq<string>)
    requires DotsFirst(done)
    ensures DotsFirst(Normalize(false, done, todo))
    decreases |todo|
  {
    if todo != [] {
      var rest := todo[1..];
      if todo[0] == "" || todo[0] == "." { PlainOrDots(done, rest); }
      else if todo[0] == ".." {
        if done != [] && done[|done|-1] != ".." { PlainOrDots(done[..|done|-1], rest); }
        else { PlainOrDots(done + [".."], rest); }
      } else { PlainOrDots(done + [todo[0]], rest); }
    }
  }

  // A file of a clean namespace is looked up under the name it was registered
  // with exactly when its name is clean: not with a leading slash, an empty
  // segment, "." or "..".
  lemma NamesMatchIff(ns: string, file: string)
    requires AllPlain(Split(ns))
    ensures Join([ns, file]) == FullName(ns, file) <==> AllPlain(Split(file))
  {
    if AllPlain(Split(file)) { CleanNamesMatch(ns, file); }
    NamespaceStart(ns);
    F.JoinIsNormal([ns, file]);
    if Join([ns, file]) == FullName(ns, file) {
      var segs := F.Normal([ns, file]);
      assert FullName(ns, file)[|ns|] == '/';
      assert segs != [];
      F.SplitGlueAll(segs);
      F.SplitAllSingles(segs);
      SplitAppend(ns, file);
      assert segs == Split(ns) + Split(file);
      PlainOrDots([], F.SplitAll([ns, file]));
      hide Join, Split, Normalize, F.SplitAll, Glue;
      assert segs[0] == Split(ns)[0] && Plain(segs[0]);
      forall k | 0 <= k < |Split(file)| ensures Plain(Split(file)[k]) {
        assert Split(file)[k] == segs[|Split(ns)| + k];
      }
    }
  }

  lemma NamespaceStart(ns: string)
    requires AllPlain(Split(ns))
    ensures ns != "" && ns[0] != '/'
  {
    assert Plain(Split(ns)[0]);
  }

  // For instance, one registered with a leading slash is never looked up.
  lemma LeadingSlashMissed(ns: string, file: string)
    requires AllPlain(Split(ns)) && file != "" && file[0] == '/'
    ensures Join([ns, file]) != FullName(ns, file)
  {
    NamesMatchIff(ns, file);
    assert Split(file)[0] == "";
  }

  predicate Told(sent: seq<Task>, c: Conn, file: string) { exists t :: t in sent && t.conn == c && file in t.files }

  lemma {:induction false} TasksTell(conns: seq<Conn>, ns: string, files: seq<string>, c: Conn, file: string)
    ensures Told(TasksFor(conns, ns, files), c, file) <==> c in conns && file in files
    decreases |conns|
  {
    if conns != [] {
      var front := conns[..|conns|-1];
      assert conns == front + [conns[|front|]];
      TasksTell(front, ns, files, c, file);
      ToldTogether(TasksFor(front, ns, files), [Task(conns[|front|], ns, files)], c, file);
      ToldOnce(Task(conns[|front|], ns, files), c, file);
    }
  }

  lemma ToldOnce(t: Task, c: Conn, file: string)
    ensures Told([t], c, file) <==> t.conn == c && file in t.files
  {
    assert t in [t];
  }

  lemma ToldTogether(a: seq<Task>, b: seq<Task>, c: Conn, file: string)
    ensures Told(a + b, c, file) <==> Told(a, c, file) || Told(b, c, file)
  {
    if t :| t in a && t.conn == c && file in t.files { assert t in a + b; }
    if t :| t in b && t.conn == c && file in t.files { assert t in a + b; }
  }

  // The connection is listed for an application that has asked for the file.
  predicate Reaches(i: Index, id: AppId, name: string, c: Conn) { Listed(i, id, c) && Subscribed(i, name, id) }

  lemma AppTells(i: Index, ns: string, files: seq<string>, id: AppId, c: Conn, file: string)
    requires file in files
    ensures Told(TasksFor(ConnsOf(i, id), ns, FilesFor(i, ns, files, id)), c, file) <==>
      Reaches(i, id, Join([ns, file]), c)
  {
    hide Subscribed, FilesFor, TasksFor, Join, Told;
    FilesForMembers(i, ns, files, id, file);
    TasksTell(ConnsOf(i, id), ns, FilesFor(i, ns, files, id), c, file);
  }

  lemma {:induction false} SentTells(i: Index, ns: string, files: seq<string>, order: seq<AppId>, c: Conn, file: string)
    requires file in files
    ensures Told(SentFor(i, ns, files, order), c, file) <==>
      exists id :: id in order && Reaches(i, id, Join([ns, file]), c)
    decreases |order|
  {
    if order != [] {
      hide FilesFor, TasksFor, Join, Told, Reaches, ConnsOf;
      var (front, id) := (order[..|order|-1], order[|order|-1]);
      assert order == front + [id];
      SentTells(i, ns, files, front, c, file);
      AppTells(i, ns, files, id, c, file);
      ToldTogether(SentFor(i, ns, files, front), TasksFor(ConnsOf(i, id), ns, FilesFor(i, ns, files, id)), c, file);
    }
  }

  // After any run a connection is told of an updated file exactly when it is
  // listed for some application that has ever asked for the file under its
  // cleaned name, in whatever order the applications are gone through.
  lemma ToldIffAsked(ops: seq<Op>, ns: string, files: seq<string>, order: seq<AppId>, c: Conn, file: string)
    requires Run(ops).Some? && AppsInOrder(Run(ops).value, ns, files, order) && file in files
    ensures Told(SentFor(Run(ops).value, ns, files, order), c, file) <==>
      exists id :: Listed(Run(ops).value, id, c) && Asked(ops, Join([ns, file]), id)
  {
    var (i, name) := (Run(ops).value, Join([ns, file]));
    hide Asked, Run, Subscribed, Join, SentFor, FilesFor, Listed;
    SentTells(i, ns, files, order, c, file);
    forall id ensures Subscribed(i, name, id) <==> Asked(ops, name, id) { IndexIsHistory(ops, name, id); }
    forall id | Subscribed(i, name, id) ensures id in order {
      FilesForMembers(i, ns, files, id, file);
    }
    if id :| Listed(i, id, c) && Asked(ops, name, id) { assert id in order && Reaches(i, id, name, c); }
    if id :| id in order && Reaches(i, id, name, c) { assert Listed(i, id, c) && Asked(ops, name, id); }
  }

  // If every registration used a connection that was not live, that is the one
  // application of the connection: a live connection is told exactly when its
  // application has ever asked for the file.
  lemma OwnerIsTold(ops: seq<Op>, ns: string, files: seq<string>, order: seq<AppId>, c: Conn, file: string)
    requires FreshConns(ops) && Run(ops).Some? && AppsInOrder(Run(ops).value, ns, files, order) && file in files
    requires c in Run(ops).value.conn2App
    ensures Told(SentFor(Run(ops).value, ns, files, order), c, file) <==>
      Asked(ops, Join([ns, file]), Run(ops).value.conn2App[c].id)
  {
    RunConsistent(ops);
    var i := Run(ops).value;
    assert forall id :: Listed(i, id, c) <==> Owns(i, id, c);
    hide Run, Asked, Join, SentFor, Listed, AppsInOrder, FreshConns;
    ToldIffAsked(ops, ns, files, order, c, file);
  }

  // The same in terms of the name it was registered with, for clean names.
  lemma SubscribersAreTold(ops: seq<Op>, ns: string, files: seq<string>, order: seq<AppId>, c: Conn, file: string)
    requires FreshConns(ops) && Run(ops).Some? && AppsInOrder(Run(ops).value, ns, files, order) && file in files
    requires c in Run(ops).value.conn2App && AllPlain(Split(ns)) && AllPlain(Split(file))
    ensures Told(SentFor(Run(ops).value, ns, files, order), c, file) <==>
      Asked(ops, FullName(ns, file), Run(ops).value.conn2App[c].id)
  {
    hide *;
    CleanNamesMatch(ns, file);
    OwnerIsTold(ops, ns, files, order, c, file);
  }

  // --- Retrying ---

  const DELAY := 30
  const MAX_DELAY := 86400
  const MAX_FAILED := 64

  predicate Due(st: Scheduled, now: int) { st.next <= now }

  function Backoff(failed: nat): nat { if DELAY * failed > MAX_DELAY then MAX_DELAY else DELAY * failed }

  // What a worker does with the first task: postpone it, or attempt it.
  function Turn(queue: seq<Scheduled>, now: int, ok: bool): seq<Scheduled> {
    if queue == [] then []
    else
      var st := queue[0];
      if !Due(st, now) then queue[1..] + [st]
      else if ok || st.failed > MAX_FAILED then queue[1..]
      else queue[1..] + [Scheduled(st.task, now + Backoff(st.failed), st.failed + 1)]
  }

  // How often the queued tasks can still be attempted.
  function Left(queue: seq<Scheduled>): nat {
    if queue == [] then 0
    else Left(queue[1..]) + Chances(queue[0])
  }

  function Chances(st: Scheduled): nat { if st.failed > MAX_FAILED then 1 else MAX_FAILED + 2 - st.failed }

  lemma {:induction false} LeftConcat(a: seq<Scheduled>, b: seq<Scheduled>)
    ensures Left(a + b) == Left(a) + Left(b)
  {
    if a == [] { assert a + b == b; }
    else {
      assert (a + b)[1..] == a[1..] + b;
      LeftConcat(a[1..], b);
    }
  }

  lemma LeftSnoc(queue: seq<Scheduled>, st: Scheduled)
    ensures Left(queue + [st]) == Left(queue) + Chances(st)
  {
    LeftConcat(queue, [st]);
    assert [st][1..] == [];
  }

  lemma LeftHead(queue: seq<Scheduled>)
    requires queue != []
    ensures Left(queue) == Left(queue[1..]) + Chances(queue[0])
  {
  }

  function Again(st: Scheduled, now: int): Scheduled { Scheduled(st.task, now + Backoff(st.failed), st.failed + 1) }

  lemma TurnCases(queue: seq<Scheduled>, now: int, ok: bool)
    requires queue != []
    ensures Turn(queue, now, ok) ==
      if !Due(queue[0], now) then queue[1..] + [queue[0]]
      else if ok || queue[0].failed > MAX_FAILED then queue[1..]
      else queue[1..] + [Again(queue[0], now)]
  {
    hide Backoff;
  }

  lemma FewerChances(st: Scheduled, now: int)
    ensures 1 <= Chances(st)
    ensures st.failed <= MAX_FAILED ==> Chances(Again(st, now)) < Chances(st)
  {
    hide Backoff;
  }

  // Every attempt brings the end closer; postponing does not move it away.
  lemma TurnDecreases(queue: seq<Scheduled>, now: int, ok: bool)
    ensures queue != [] && Due(queue[0], now) ==> Left(Turn(queue, now, ok)) < Left(queue)
    ensures Left(Turn(queue, now, ok)) <= Left(queue)
  {
    if queue != [] {
      hide *;
      TurnCases(queue, now, ok);
      FewerChances(queue[0], now);
      LeftHead(queue);
      LeftSnoc(queue[1..], queue[0]);
      LeftSnoc(queue[1..], Again(queue[0], now));
    }
  }

  datatype Wake = Wake(now: int, ok: bool)

  function Turns(queue: seq<Scheduled>, wakes: seq<Wake>): seq<Scheduled> {
    if wakes == [] then queue else Turn(Turns(queue, wakes[..|wakes|-1]), wakes[|wakes|-1].now, wakes[|wakes|-1].ok)
  }

  function Attempts(queue: seq<Scheduled>, wakes: seq<Wake>): nat {
    if wakes == [] then 0
    else
      var before := Turns(queue, wakes[..|wakes|-1]);
      Attempts(queue, wakes[..|wakes|-1]) + if before != [] && Due(before[0], wakes[|wakes|-1].now) then 1 else 0
  }

  // Without new notifications, any number of turns makes a bounded number of attempts.
  lemma {:induction false} AttemptsAreBounded(queue: seq<Scheduled>, wakes: seq<Wake>)
    ensures Attempts(queue, wakes) + Left(Turns(queue, wakes)) <= Left(queue)
    decreases |wakes|
  {
    if wakes != [] {
      hide Turn, Left;
      AttemptsAreBounded(queue, wakes[..|wakes|-1]);
      TurnDecreases(Turns(queue, wakes[..|wakes|-1]), wakes[|wakes|-1].now, wakes[|wakes|-1].ok);
    }
  }

  // A notification that just failed is attempted at most 65 times more.
  lemma NewTaskAttempts(t: Task, wakes: seq<Wake>)
    ensures Attempts([Scheduled(t, 0, 1)], wakes) <= 65
  {
    AttemptsAreBounded([Scheduled(t, 0, 1)], wakes);
    assert [Scheduled(t, 0, 1)][1..] == [];
  }

  ghost predicate Sound(queue: seq<Scheduled>) {
    forall k :: 0 <= k < |queue| ==> 1 <= queue[k].failed <= 65
  }

  // Failure counts stay within 1 to 65, so a task is put off by at most 32
  // minutes: the one-day cap is never reached.
  lemma TurnSound(queue: seq<Scheduled>, now: int, ok: bool)
    requires Sound(queue)
    ensures Sound(Turn(queue, now, ok))
    ensures forall k :: 0 <= k < |queue| && queue[k].failed <= 64 ==>
      Backoff(queue[k].failed) == 30 * queue[k].failed <= 1920
  {
  }

  // A turn with a first task that is not due only moves it to the end; a due one
  // is gone if it succeeds or has failed 65 times, and else comes back last, one
  // failure and 30 seconds a failure later.
  lemma TurnMeans(first: Scheduled, rest: seq<Scheduled>, now: int, ok: bool)
    requires 1 <= first.failed <= 65
    ensures Turn([first] + rest, now, ok) ==
      if first.next > now then rest + [first]
      else if ok || first.failed == 65 then rest
      else rest + [Scheduled(first.task, now + 30 * first.failed, first.failed + 1)]
  {
    assert ([first] + rest)[1..] == rest;
  }

  // The worker looks at the queue late enough for any delay, and fails.
  predicate LateAndFailing(wakes: seq<Wake>) {
    forall k :: 0 <= k < |wakes| ==> wakes[k] == Wake(100_000 * k, false)
  }

  // A task after n failing attempts, the last of them at 100_000 * (n - 1).
  function Failed(t: Task, n: nat): Scheduled {
    Scheduled(t, if n == 0 then 0 else 100_000 * (n - 1) + 30 * n, n + 1)
  }

  lemma FailsAgain(t: Task, n: nat)
    requires n <= 64
    ensures Due(Failed(t, n), 100_000 * n)
    ensures Turn([Failed(t, n)], 100_000 * n, false) == if n == 64 then [] else [Failed(t, n + 1)]
  {
    assert [Failed(t, n)] + [] == [Failed(t, n)];
    TurnMeans(Failed(t, n), [], 100_000 * n, false);
    hide Turn;
  }

  // A notification that always fails is attempted exactly 65 times.
  lemma {:induction false} AlwaysFailing(t: Task, wakes: seq<Wake>)
    requires LateAndFailing(wakes)
    ensures Attempts([Scheduled(t, 0, 1)], wakes) == if |wakes| <= 65 then |wakes| else 65
    ensures Turns([Scheduled(t, 0, 1)], wakes) == if |wakes| <= 64 then [Failed(t, |wakes|)] else []
    decreases |wakes|
  {
    if wakes != [] {
      var (front, n) := (wakes[..|wakes|-1], |wakes| - 1);
      AlwaysFailing(t, front);
      assert wakes[n] == Wake(100_000 * n, false);
      hide LateAndFailing, Due, Failed;
      if n <= 64 { FailsAgain(t, n); }
    }
  }

  // Cancelling a connection removes one of its queued notifications, if any.
  lemma {:induction false} CancelRemovesOne(queue: seq<Scheduled>, conn: Conn)
    ensures TasksOf(CancelQueue(queue, conn), conn) == if TasksOf(queue, conn) == [] then []
      else TasksOf(queue, conn)[1..]
    ensures forall c :: c != conn ==> TasksOf(CancelQueue(queue, conn), c) == TasksOf(queue, c)
  {
    if queue != [] {
      CancelRemovesOne(queue[1..], conn);
      if queue[0].task.conn != conn {
        assert ([queue[0]] + CancelQueue(queue[1..], conn))[1..] == CancelQueue(queue[1..], conn);
      }
    }
  }

  function TasksOf(queue: seq<Scheduled>, conn: Conn): seq<Scheduled> {
    if queue == [] then []
    else (if queue[0].task.conn == conn then [queue[0]] else []) + TasksOf(queue[1..], conn)
  }

  // --- The syncer as an object ---

  function Failures(sent: seq<Task>, fails: set<Conn>): seq<Scheduled> {
    if sent == [] then []
    else
      var last := sent[|sent|-1];
      Failures(sent[..|sent|-1], fails) + if last.conn in fails then [Scheduled(last, 0, 1)] else []
  }

  // Each failed notification is queued once, due at once, with one failure.
  lemma {:induction false} FailuresAreQueued(sent: seq<Task>, fails: set<Conn>, t: Task)
    ensures (exists st :: st in Failures(sent, fails) && st.task == t) <==> t in sent && t.conn in fails
    ensures forall st :: st in Failures(sent, fails) ==> st.next == 0 && st.failed == 1
    decreases |sent|
  {
    if sent != [] {
      var (front, last) := (sent[..|sent|-1], sent[|sent|-1]);
      assert sent == front + [last];
      FailuresAreQueued(front, fails, t);
      if last.conn in fails { assert Scheduled(last, 0, 1) in Failures(sent, fails); }
      forall st | st in Failures(front, fails) ensures st in Failures(sent, fails) {}
    }
  }

  // The files collected so far for every application.
  ghost predicate Collected(i: Index, ns: string, files: seq<string>, app2Files: map<AppId, seq<string>>) {
    forall id :: FilesFor(i, ns, files, id) == Files(app2Files, id)
  }

  ghost predicate NoEmptyEntry(app2Files: map<AppId, seq<string>>) {
    forall id :: id in app2Files ==> app2Files[id] != []
  }

  lemma FilesForSnoc(i: Index, ns: string, files: seq<string>, file: string, id: AppId)
    ensures FilesFor(i, ns, files + [file], id) == FilesFor(i, ns, files, id) + if Subscribed(i, Join([ns, file]), id)
      then [file] else []
  {
    assert (files + [file])[..|files|] == files;
  }

  // One task for every connection of an application, in their order.
  function TasksFor(conns: seq<Conn>, ns: string, files: seq<string>): seq<Task> {
    if conns == [] then [] else TasksFor(conns[..|conns|-1], ns, files) + [Task(conns[|conns|-1], ns, files)]
  }

  // What is sent when the applications are gone through in this order.
  function SentFor(i: Index, ns: string, files: seq<string>, order: seq<AppId>): seq<Task> {
    if order == [] then []
    else
      var id := order[|order|-1];
      SentFor(i, ns, files, order[..|order|-1]) + TasksFor(ConnsOf(i, id), ns, FilesFor(i, ns, files, id))
  }

  // The applications that have asked for some of the files, each once.
  ghost predicate AppsInOrder(i: Index, ns: string, files: seq<string>, order: seq<AppId>) {
    NoDuplicates(order) && forall id :: id in order <==> FilesFor(i, ns, files, id) != []
  }

  lemma SentForSnoc(i: Index, ns: string, files: seq<string>, order: seq<AppId>, id: AppId)
    ensures SentFor(i, ns, files, order + [id]) ==
      SentFor(i, ns, files, order) + TasksFor(ConnsOf(i, id), ns, FilesFor(i, ns, files, id))
  {
    assert (order + [id])[..|order|] == order;
  }

  ghost predicate OnceEach(order: seq<AppId>, ids: set<AppId>) {
    NoDuplicates(order) && forall id :: id in order <==> id in ids
  }

  lemma OnceEachMore(order: seq<AppId>, ids: set<AppId>, id: AppId)
    requires OnceEach(order, ids) && id !in ids
    ensures OnceEach(order + [id], ids + {id})
  {
  }

  lemma NothingSent(i: Index, ns: string, files: seq<string>, fails: set<Conn>)
    ensures SentFor(i, ns, files, []) == [] && Failures([], fails) == []
    ensures forall ids: set<AppId> :: OnceEach([], ids - ids)
  {
  }

  lemma CollectedFiles(i: Index, ns: string, files: seq<string>, app2Files: map<AppId, seq<string>>, id: AppId)
    requires Collected(i, ns, files, app2Files) && id in app2Files
    ensures app2Files[id] == FilesFor(i, ns, files, id)
  {
  }

  lemma InOrder(i: Index, ns: string, files: seq<string>, app2Files: map<AppId, seq<string>>, order: seq<AppId>)
    requires Collected(i, ns, files, app2Files) && NoEmptyEntry(app2Files) && OnceEach(order, app2Files.Keys)
    ensures AppsInOrder(i, ns, files, order)
  {
    hide FilesFor;
  }

  // --- In a consistent state every live connection gets at most one task ---

  ghost predicate SentSoFar(i: Index, ns: string, files: seq<string>, sent: seq<Task>) {
    && (forall j, k :: 0 <= j < k < |sent| ==> sent[j].conn != sent[k].conn)
    && (forall t :: t in sent ==>
      t.conn in i.conn2App && t == Task(t.conn, ns, FilesFor(i, ns, files, i.conn2App[t.conn].id)))
  }

  predicate HasTask(sent: seq<Task>, c: Conn) { exists t :: t in sent && t.conn == c }

  // Sent so far: everything for the applications done, and for the connections
  // gone through of the one at hand.
  ghost predicate Reached(i: Index, ns: string, files: seq<string>, done: seq<AppId>, conns: seq<Conn>,
      sent: seq<Task>) {
    && SentSoFar(i, ns, files, sent)
    && (forall c :: HasTask(sent, c) <==> c in i.conn2App && (i.conn2App[c].id in done || c in conns))
  }

  lemma SentMore(i: Index, ns: string, files: seq<string>, sent: seq<Task>, c: Conn)
    requires SentSoFar(i, ns, files, sent) && !HasTask(sent, c) && c in i.conn2App
    ensures SentSoFar(i, ns, files, sent + [Task(c, ns, FilesFor(i, ns, files, i.conn2App[c].id))])
    ensures forall d :: HasTask(sent + [Task(c, ns, FilesFor(i, ns, files, i.conn2App[c].id))], d) <==>
      HasTask(sent, d) || d == c
  {
    var more := sent + [Task(c, ns, FilesFor(i, ns, files, i.conn2App[c].id))];
    hide FilesFor;
    assert forall j :: 0 <= j < |sent| ==> sent[j] in sent;
    forall d | HasTask(sent, d) || d == c ensures HasTask(more, d) {
      if HasTask(sent, d) { var t :| t in sent && t.conn == d; assert t in more; }
      else { assert more[|sent|] in more; }
    }
  }

  lemma {:induction false} TasksReached(i: Index, ns: string, files: seq<string>, done: seq<AppId>, conns: seq<Conn>,
      id: AppId, sent: seq<Task>)
    requires Reached(i, ns, files, done, [], sent) && id !in done
    requires NoDuplicates(conns) && forall c :: c in conns ==> Owns(i, id, c)
    ensures Reached(i, ns, files, done, conns, sent + TasksFor(conns, ns, FilesFor(i, ns, files, id)))
    decreases |conns|
  {
    hide FilesFor, SentSoFar;
    if conns == [] {
      assert sent + [] == sent;
    } else {
      var front, c := conns[..|conns|-1], conns[|conns|-1];
      assert conns == front + [c] && Owns(i, id, c);
      TasksReached(i, ns, files, done, front, id, sent);
      var before := sent + TasksFor(front, ns, FilesFor(i, ns, files, id));
      SentMore(i, ns, files, before, c);
      assert before + [Task(c, ns, FilesFor(i, ns, files, id))] ==
        sent + TasksFor(conns, ns, FilesFor(i, ns, files, id));
    }
  }

  lemma OwnConns(i: Index, id: AppId)
    requires Consistent(i)
    ensures NoDuplicates(ConnsOf(i, id)) && forall c :: c in ConnsOf(i, id) <==> Owns(i, id, c)
  {
    assert forall c :: Listed(i, id, c) <==> Owns(i, id, c);
  }

  lemma ReachedAll(i: Index, ns: string, files: seq<string>, done: seq<AppId>, id: AppId, conns: seq<Conn>,
      sent: seq<Task>)
    requires Reached(i, ns, files, done, conns, sent) && forall c :: c in conns <==> Owns(i, id, c)
    ensures Reached(i, ns, files, done + [id], [], sent)
  {
    hide SentSoFar, HasTask;
  }

  lemma {:induction false} OrderReached(i: Index, ns: string, files: seq<string>, order: seq<AppId>)
    requires Consistent(i) && NoDuplicates(order)
    ensures Reached(i, ns, files, order, [], SentFor(i, ns, files, order))
    decreases |order|
  {
    if order != [] {
      hide Consistent, Reached, FilesFor, TasksFor;
      var front, id := order[..|order|-1], order[|order|-1];
      assert order == front + [id];
      OrderReached(i, ns, files, front);
      OwnConns(i, id);
      var sent := SentFor(i, ns, files, front) + TasksFor(ConnsOf(i, id), ns, FilesFor(i, ns, files, id));
      TasksReached(i, ns, files, front, ConnsOf(i, id), id, SentFor(i, ns, files, front));
      ReachedAll(i, ns, files, front, id, ConnsOf(i, id), sent);
    }
  }

  // In whatever order the applications come.
  lemma ConsistentExactly(i: Index, ns: string, files: seq<string>, order: seq<AppId>)
    requires Consistent(i) && AppsInOrder(i, ns, files, order)
    ensures NotifiesExactly(i, ns, files, SentFor(i, ns, files, order))
  {
    OrderReached(i, ns, files, order);
    hide Consistent, FilesFor, SentFor;
    var sent := SentFor(i, ns, files, order);
    forall t | t in sent ensures FilesFor(i, ns, files, i.conn2App[t.conn].id) != [] { assert HasTask(sent, t.conn); }
    forall c | c in i.conn2App && FilesFor(i, ns, files, i.conn2App[c].id) != []
      ensures exists t :: t in sent && t.conn == c
    {
      assert HasTask(sent, c);
    }
  }

  lemma FailuresSnoc(sent: seq<Task>, task: Task, fails: set<Conn>)
    ensures Failures(sent + [task], fails) == Failures(sent, fails) + if task.conn in fails
      then [Scheduled(task, 0, 1)] else []
  {
    assert (sent + [task])[..|sent|] == sent;
  }

  method WithoutConn(conns: seq<Conn>, conn: Conn) returns (rest: seq<Conn>)
    ensures rest == RemoveFirst(conns, conn)
  {
    var k := 0;
    while k < |conns| && conns[k] != conn
      invariant k <= |conns| && RemoveFirst(conns, conn) == conns[..k] + RemoveFirst(conns[k..], conn)
    {
      assert conns[k..][1..] == conns[k+1..];
      k := k + 1;
    }
    if k == |conns| { return conns; }
    assert conns[k..][1..] == conns[k+1..];
    rest := conns[..k] + conns[k+1..];
  }

  class Service {
    var apps: map<AppId, seq<Conn>>
    var conn2App: map<Conn, App>
    var regFileToApp: map<string, set<AppId>>
    var regNSToApp: map<string, set<AppId>>
    var notifyQueue: seq<Scheduled>

    function State(): Index reads this`apps, this`conn2App, this`regFileToApp, this`regNSToApp {
      Index(apps, conn2App, regFileToApp, regNSToApp)
    }

    constructor ()
      ensures State() == EMPTY && notifyQueue == []
    {
      apps, conn2App, regFileToApp, regNSToApp, notifyQueue := map[], map[], map[], map[], [];
    }

    method RegisterApp(app: App, conn: Conn)
      modifies this`apps, this`conn2App, this`regFileToApp, this`regNSToApp
      ensures State() == Register(old(State()), app, conn)
    {
      if app.id !in apps { apps := apps[app.id := []]; }
      apps := apps[app.id := apps[app.id] + [conn]];
      conn2App := conn2App[conn := app];
      RegisterFiles(app);
      RegisterNamespaces(app);
    }

    method RegisterFiles(app: App)
      modifies this`regFileToApp
      ensures regFileToApp == InsertSet(old(regFileToApp), app.files, app.id)
    {
      hide *;
      var todo := app.files;
      InsertNone(regFileToApp, app.id);
      assert app.files - todo == {};
      while todo != {}
        invariant todo <= app.files && regFileToApp == InsertSet(old(regFileToApp), app.files - todo, app.id)
        decreases |todo|
      {
        var file :| file in todo;
        InsertOneMore(old(regFileToApp), app.files - todo, file, app.id);
        assert app.files - todo + {file} == app.files - (todo - {file});
        AddFile(file, app.id);
        todo := todo - {file};
      }
      assert app.files - todo == app.files;
    }

    method AddFile(file: string, id: AppId)
      modifies this`regFileToApp
      ensures regFileToApp == Insert(old(regFileToApp), file, id)
    {
      if file !in regFileToApp { regFileToApp := regFileToApp[file := {}]; }
      regFileToApp := regFileToApp[file := regFileToApp[file] + {id}];
    }

    method RegisterNamespaces(app: App)
      modifies this`regNSToApp
      ensures regNSToApp == InsertAll(old(regNSToApp), app.namespaces, app.id)
    {
      for k := 0 to |app.namespaces|
        invariant regNSToApp == InsertAll(old(regNSToApp), app.namespaces[..k], app.id)
      {
        assert app.namespaces[..k+1][..k] == app.namespaces[..k];
        var ns := app.namespaces[k];
        if ns !in regNSToApp { regNSToApp := regNSToApp[ns := {}]; }
        regNSToApp := regNSToApp[ns := regNSToApp[ns] + {app.id}];
      }
      assert app.namespaces[..|app.namespaces|] == app.namespaces;
    }

    // ok is false when the program crashes for want of the connection.
    method RegisterFileToApp(conn: Conn, ns: string, file: string) returns (ok: bool)
      modifies this`regFileToApp, this`conn2App
      ensures ok == RegisterFile(old(State()), conn, ns, file).Some?
      ensures ok ==> Some(State()) == RegisterFile(old(State()), conn, ns, file)
    {
      var name := ns + "/" + file;
      if name !in regFileToApp { regFileToApp := regFileToApp[name := {}]; }
      if conn !in conn2App { return false; }
      var app := conn2App[conn];
      regFileToApp := regFileToApp[name := regFileToApp[name] + {app.id}];
      assert regFileToApp == Insert(old(regFileToApp), name, app.id);
      conn2App := conn2App[conn := app.(files := app.files + {name})];
      return true;
    }

    method CancelApp(conn: Conn)
      modifies this`apps, this`conn2App, this`notifyQueue
      ensures State() == Cancel(old(State()), conn) && notifyQueue == CancelQueue(old(notifyQueue), conn)
    {
      if conn in conn2App {
        var id := conn2App[conn].id;
        conn2App := conn2App - {conn};
        if id in apps {
          var rest := WithoutConn(apps[id], conn);
          apps := apps[id := rest];
        }
      }
      CancelTask(conn);
    }

    method CancelTask(conn: Conn)
      modifies this`notifyQueue
      ensures notifyQueue == CancelQueue(old(notifyQueue), conn)
    {
      var k := 0;
      while k < |notifyQueue| && notifyQueue[k].task.conn != conn
        invariant k <= |notifyQueue| &&
          CancelQueue(notifyQueue, conn) == notifyQueue[..k] + CancelQueue(notifyQueue[k..], conn)
      {
        assert notifyQueue[k..][1..] == notifyQueue[k+1..];
        k := k + 1;
      }
      if k < |notifyQueue| {
        assert notifyQueue[k..][1..] == notifyQueue[k+1..];
        notifyQueue := notifyQueue[..k] + notifyQueue[k+1..];
      }
    }

    // fails: the connections to which sending fails. The applications come in
    // some order.
    method NotifyUpdate(ns: string, files: seq<string>, fails: set<Conn>)
        returns (sent: seq<Task>, ghost order: seq<AppId>)
      modifies this`notifyQueue
      ensures AppsInOrder(State(), ns, files, order) && sent == SentFor(State(), ns, files, order)
      ensures Consistent(State()) ==> NotifiesExactly(State(), ns, files, sent)
      ensures notifyQueue == old(notifyQueue) + Failures(sent, fails)
    {
      hide *;
      var app2Files := Collect(ns, files);
      sent, order := [], [];
      var todo := app2Files.Keys;
      ghost var i := State();
      NothingSent(i, ns, files, fails);
      while todo != {}
        invariant todo <= app2Files.Keys && sent == SentFor(i, ns, files, order)
        invariant OnceEach(order, app2Files.Keys - todo)
        invariant notifyQueue == old(notifyQueue) + Failures(sent, fails)
        decreases |todo|
      {
        var id :| id in todo;
        CollectedFiles(i, ns, files, app2Files, id);
        SentForSnoc(i, ns, files, order, id);
        OnceEachMore(order, app2Files.Keys - todo, id);
        assert app2Files.Keys - todo + {id} == app2Files.Keys - (todo - {id});
        sent := NotifyApp(ns, id, app2Files[id], fails, sent, old(notifyQueue));
        order := order + [id];
        todo := todo - {id};
      }
      assert app2Files.Keys - todo == app2Files.Keys;
      InOrder(i, ns, files, app2Files, order);
      if Consistent(i) { ConsistentExactly(i, ns, files, order); }
    }

    method Collect(ns: string, files: seq<string>) returns (app2Files: map<AppId, seq<string>>)
      ensures Collected(State(), ns, files, app2Files) && NoEmptyEntry(app2Files)
    {
      app2Files := map[];
      for k := 0 to |files|
        invariant Collected(State(), ns, files[..k], app2Files) && NoEmptyEntry(app2Files)
      {
        var file := files[k];
        var name := Join([ns, file]);
        assert files[..k+1] == files[..k] + [file];
        app2Files := CollectFile(name, file, app2Files);
        forall id ensures FilesFor(State(), ns, files[..k+1], id) == Files(app2Files, id) {
          FilesForSnoc(State(), ns, files[..k], file, id);
        }
      }
      assert files[..|files|] == files;
    }

    method CollectFile(name: string, file: string, before: map<AppId, seq<string>>)
        returns (app2Files: map<AppId, seq<string>>)
      requires NoEmptyEntry(before)
      ensures NoEmptyEntry(app2Files)
      ensures forall id :: Files(app2Files, id) == Files(before, id) + if Subscribed(State(), name, id) then [file]
        else []
    {
      app2Files := before;
      if name !in regFileToApp { return; }
      var ids := regFileToApp[name];
      var todo := ids;
      while todo != {}
        invariant todo <= ids && NoEmptyEntry(app2Files)
        invariant forall id :: Files(app2Files, id) == Files(before, id) + if id in ids && id !in todo then [file]
          else []
        decreases |todo|
      {
        var id :| id in todo;
        hide NoEmptyEntry, Files;
        app2Files := AddTo(app2Files, id, file);
        todo := todo - {id};
      }
    }

    method AddTo(before: map<AppId, seq<string>>, id: AppId, file: string) returns (app2Files: map<AppId, seq<string>>)
      requires NoEmptyEntry(before)
      ensures NoEmptyEntry(app2Files)
      ensures forall other :: Files(app2Files, other) == Files(before, other) + if other == id then [file] else []
    {
      app2Files := before;
      if id !in app2Files { app2Files := app2Files[id := []]; }
      app2Files := app2Files[id := app2Files[id] + [file]];
    }

    // Notifies every connection of one application.
    method NotifyApp(ns: string, id: AppId, files: seq<string>, fails: set<Conn>, before: seq<Task>,
        ghost queue: seq<Scheduled>)
      returns (sent: seq<Task>)
      requires notifyQueue == queue + Failures(before, fails)
      modifies this`notifyQueue
      ensures sent == before + TasksFor(ConnsOf(State(), id), ns, files)
      ensures notifyQueue == queue + Failures(sent, fails)
    {
      var conns := if id in apps then apps[id] else [];
      sent := before;
      hide Failures;
      for k := 0 to |conns|
        invariant sent == before + TasksFor(conns[..k], ns, files)
        invariant notifyQueue == queue + Failures(sent, fails)
      {
        assert conns[..k+1][..k] == conns[..k];
        sent := Notify(Task(conns[k], ns, files), fails, sent, queue);
      }
      assert conns[..|conns|] == conns;
    }

    // Sends one notification and queues it when sending fails.
    method Notify(task: Task, fails: set<Conn>, before: seq<Task>, ghost queue: seq<Scheduled>)
        returns (sent: seq<Task>)
      requires notifyQueue == queue + Failures(before, fails)
      modifies this`notifyQueue
      ensures sent == before + [task] && notifyQueue == queue + Failures(sent, fails)
    {
      FailuresSnoc(before, task, fails);
      if task.conn in fails { notifyQueue := notifyQueue + [Scheduled(task, 0, 1)]; }
      sent := before + [task];
    }

    // One turn of a worker.
    method Work(now: int, ok: bool)
      modifies this`notifyQueue
      ensures notifyQueue == Turn(old(notifyQueue), now, ok)
    {
      if notifyQueue == [] { return; }
      var st := notifyQueue[0];
      notifyQueue := notifyQueue[1..];
      if st.next > now {
        notifyQueue := notifyQueue + [st];
        return;
      }
      if ok || st.failed > MAX_FAILED { return; }
      var delta := DELAY * st.failed;
      if delta > MAX_DELAY { delta := MAX_DELAY; }
      notifyQueue := notifyQueue + [Scheduled(st.task, now + delta, st.failed + 1)];
    }
  }

  function Files(app2Files: map<AppId, seq<string>>, id: AppId): seq<string> {
    if id in app2Files then app2Files[id] else []
  }
}
