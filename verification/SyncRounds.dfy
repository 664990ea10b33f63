// A round of retries, looked at task by task, is the round of the download queue.
module SyncRounds {
  import opened Wrappers
  import opened FileMapper
  import opened SyncServer
  import opened Sync
  import opened SyncRuns
  import D = DownloadQueue

  // The round can try its first tasks with these outcomes.
  predicate CanTry(m: Setting, a: Agent, oks: seq<bool>) {
    |oks| <= |a.todo| && forall i :: 0 <= i < |oks| ==> CanBe(m, a.todo[i].req, oks[i])
  }

  function AfterTasks(m: Setting, a: Agent, oks: seq<bool>): (b: Agent)
    requires CanTry(m, a, oks)
    ensures b.todo == a.todo[|oks|..]
  {
    if oks == [] then a else Retry(AfterTasks(m, a, oks[..|oks|-1]), m, oks[|oks|-1])
  }

  lemma {:induction false} RoundIsRetry(m: Setting, a: Agent, oks: seq<bool>)
    requires CanTry(m, a, oks) && a.seen == {} && a.kept == []
    ensures var b, tasks := AfterTasks(m, a, oks), a.todo[..|oks|];
      && b.seen == D.KeysOf(D.Attempted(tasks)) && b.kept == D.Retained(tasks, oks)
      && b.downloads == a.downloads && b.failures == a.failures && b.mapper == a.mapper
    decreases |oks|
  {
    var n := |oks| - 1;
    if oks != [] {
      var front, tasks := oks[..n], a.todo[..|oks|];
      RoundIsRetry(m, a, front);
      assert tasks[..n] == a.todo[..n] && tasks[n] == a.todo[n];
      var p := AfterTasks(m, a, front);
      assert p.todo != [] && p.todo[0] == tasks[n] && CanBe(m, p.todo[0].req, oks[n]);
      RetryLooks(m, p, oks[n]);
      hide AfterTasks, Retry, CanBe, Receive, D.ArgsKey, D.KeysOf, D.Attempted, D.Retained;
      RoundSnoc(p, Retry(p, m, oks[n]), tasks, oks);
    }
  }

  // One more task in the terms of the download queue.
  lemma AttemptedLast(tasks: seq<D.Task>)
    requires tasks != []
    ensures var (front, t) := (tasks[..|tasks|-1], tasks[|tasks|-1]);
      D.KeysOf(D.Attempted(tasks)) == D.KeysOf(D.Attempted(front)) + {D.ArgsKey(t.req)}
  {
    var (front, t) := (tasks[..|tasks|-1], tasks[|tasks|-1]);
    D.KeysSnoc(D.Attempted(front), t);
    hide D.ArgsKey, D.KeysOf;
    if D.ArgsKey(t.req) in D.KeysOf(D.Attempted(front)) {
      assert D.KeysOf(D.Attempted(front)) + {D.ArgsKey(t.req)} == D.KeysOf(D.Attempted(front));
    }
  }

  lemma RetainedLast(tasks: seq<D.Task>, oks: seq<bool>, n: nat)
    requires |tasks| == |oks| == n + 1
    ensures if D.ArgsKey(tasks[n].req) in D.KeysOf(D.Attempted(tasks[..n])) || oks[n] ||
      tasks[n].failed + 1 > D.MAX_FAILED
      then D.Retained(tasks, oks) == D.Retained(tasks[..n], oks[..n])
      else D.Retained(tasks, oks) == D.Retained(tasks[..n], oks[..n]) + [tasks[n].(failed := tasks[n].failed + 1)]
  {
    hide D.ArgsKey, D.KeysOf, D.Attempted;
  }

  lemma RoundSnoc(p: Agent, b: Agent, tasks: seq<D.Task>, oks: seq<bool>)
    requires |tasks| == |oks| > 0 && p.todo != [] && p.todo[0] == tasks[|tasks|-1]
    requires var n := |tasks| - 1;
      p.seen == D.KeysOf(D.Attempted(tasks[..n])) && p.kept == D.Retained(tasks[..n], oks[..n])
    requires var (t, ok) := (p.todo[0], oks[|oks|-1]);
      LookedAt(p, b, D.ArgsKey(t.req) !in p.seen && !ok && t.failed + 1 <= D.MAX_FAILED)
    ensures b.seen == D.KeysOf(D.Attempted(tasks)) && b.kept == D.Retained(tasks, oks)
  {
    hide D.ArgsKey, D.KeysOf, D.Attempted, D.Retained;
    AttemptedLast(tasks);
    RetainedLast(tasks, oks, |tasks| - 1);
    assert p.kept + [] == p.kept;
  }

  // What has become of the request of file f after some tasks.
  predicate Accounted(m: Setting, b: Agent, f: Wanted, ok: bool) {
    if ok then Place(f.ns, f.name) in b.disk && (Yields(m, f).Some? ==> UpdateOf(m, f) in b.updates)
    else InTasks(b.kept, ReqOf(f)) || ReqOf(f) in b.lost
  }

  lemma FirstTry(m: Setting, a: Agent, f: Wanted, ok: bool)
    requires a.todo != [] && CanBe(m, a.todo[0].req, ok) && a.todo[0].req == ReqOf(f) && !Taken(m, f)
    requires f in m.catalogue && D.ArgsKey(ReqOf(f)) !in a.seen
    ensures Accounted(m, Retry(a, m, ok), f, ok)
  {
    RetryLooks(m, a, ok);
    ReceiveMeans(m, a, f);
    SnocTask(a.kept, a.todo[0].(failed := a.todo[0].failed + 1));
    hide Receive, Retry, Yields, Place, D.ArgsKey;
  }

  lemma LaterTry(m: Setting, a: Agent, f: Wanted, ok: bool, later: bool)
    requires Sound(m, a) && a.todo != [] && CanBe(m, a.todo[0].req, later) && Accounted(m, a, f, ok)
    ensures Accounted(m, Retry(a, m, later), f, ok)
  {
    var t := a.todo[0];
    RetryLooks(m, a, later);
    assert IsWanted(m, t.req);
    var g :| g in m.catalogue && !Taken(m, g) && ReqOf(g) == t.req;
    ReceiveMeans(m, a, g);
    SnocTask(a.kept, t.(failed := t.failed + 1));
    assert a.kept + [] == a.kept;
    hide Receive, Retry, Yields, Place, D.ArgsKey, Sound;
  }

  lemma RetrySound(m: Setting, a: Agent, ok: bool)
    requires Good(m) && Sound(m, a) && a.todo != [] && CanBe(m, a.todo[0].req, ok)
    ensures Sound(m, Retry(a, m, ok))
  {
    assert Possible(m, a, Retrying(ok));
    hide Good, Sound, CanBe;
    MoveKeeps(m, a, Retrying(ok));
    hide Retry;
  }

  lemma TaskOfFile(m: Setting, a: Agent, f: Wanted, k: nat)
    requires Good(m) && AllWanted(m, a.todo) && f in m.catalogue && !Taken(m, f)
    requires k < |a.todo| && D.ArgsKey(a.todo[k].req) == D.ArgsKey(ReqOf(f))
    ensures a.todo[k].req == ReqOf(f)
  {
    assert a.todo[k] in a.todo && IsWanted(m, a.todo[k].req) && IsWanted(m, ReqOf(f));
    hide *;
    SameKeySameRequest(m, a.todo[k].req, ReqOf(f));
  }

  // The first task with the key of f's request carries that request. Once the
  // round has looked at it, f is downloaded, kept or given up as that attempt
  // went, however many tasks follow: merging loses none.
  lemma {:induction false} RetryAccounted(m: Setting, a: Agent, oks: seq<bool>, f: Wanted, k: nat)
    requires Good(m) && Sound(m, a) && a.seen == {} && a.kept == [] && CanTry(m, a, oks)
    requires f in m.catalogue && !Taken(m, f)
    requires k < |oks| && D.ArgsKey(a.todo[k].req) == D.ArgsKey(ReqOf(f))
    requires forall i :: 0 <= i < k ==> D.ArgsKey(a.todo[i].req) != D.ArgsKey(ReqOf(f))
    ensures a.todo[k].req == ReqOf(f) && Sound(m, AfterTasks(m, a, oks))
    ensures Accounted(m, AfterTasks(m, a, oks), f, oks[k])
    decreases |oks|
  {
    var n := |oks| - 1;
    var front := oks[..n];
    TaskOfFile(m, a, f, k);
    LastTry(m, a, oks);
    var p := AfterTasks(m, a, front);
    hide *;
    if k < n {
      RetryAccounted(m, a, front, f, k);
      LaterTry(m, p, f, oks[k], oks[n]);
    } else {
      TasksSound(m, a, front);
      NotSeenYet(m, a, front, f);
      FirstTry(m, p, f, oks[n]);
    }
    RetrySound(m, p, oks[n]);
  }

  lemma LastTry(m: Setting, a: Agent, oks: seq<bool>)
    requires CanTry(m, a, oks) && oks != []
    ensures var (n, front) := (|oks| - 1, oks[..|oks|-1]);
      && CanTry(m, a, front) && AfterTasks(m, a, front).todo != [] && AfterTasks(m, a, front).todo[0] == a.todo[n]
      && CanBe(m, a.todo[n].req, oks[n])
      && AfterTasks(m, a, oks) == Retry(AfterTasks(m, a, front), m, oks[n])
  {
    hide Retry, CanBe;
  }

  lemma NotSeenYet(m: Setting, a: Agent, oks: seq<bool>, f: Wanted)
    requires CanTry(m, a, oks) && a.seen == {} && a.kept == []
    requires forall i :: 0 <= i < |oks| ==> D.ArgsKey(a.todo[i].req) != D.ArgsKey(ReqOf(f))
    ensures D.ArgsKey(ReqOf(f)) !in AfterTasks(m, a, oks).seen
  {
    RoundIsRetry(m, a, oks);
    D.AttemptsEachKeyOnce(a.todo[..|oks|]);
    hide D.ArgsKey, AfterTasks, D.Attempted, D.Retained, CanBe;
    assert D.ArgsKey(ReqOf(f)) !in D.KeysOf(a.todo[..|oks|]);
  }

  lemma {:induction false} TasksSound(m: Setting, a: Agent, oks: seq<bool>)
    requires Good(m) && Sound(m, a) && CanTry(m, a, oks)
    ensures Sound(m, AfterTasks(m, a, oks))
    decreases |oks|
  {
    hide Good, Sound, CanBe;
    if oks != [] {
      TasksSound(m, a, oks[..|oks|-1]);
      RetrySound(m, AfterTasks(m, a, oks[..|oks|-1]), oks[|oks|-1]);
    }
  }

  // --- When a request is given up ---

  predicate NeverSucceeds(events: seq<Event>) {
    forall e :: e in events ==> e == Downloading(false) || e == RetryStarts || e == Retrying(false) || e == RetryEnds
  }

  // One round with a single task that fails.
  lemma FailingRound(m: Setting, a: Agent, r: D.Request, k: nat) returns (b: Agent, c: Agent, d: Agent)
    requires a.failures == [D.Task(r, k)] && a.todo == [] && a.seen == {} && a.kept == [] && r.FileRequest?
    ensures Possible(m, a, RetryStarts) && b == Step(m, a, RetryStarts)
    ensures Possible(m, b, Retrying(false)) && c == Step(m, b, Retrying(false))
    ensures Possible(m, c, RetryEnds) && d == Step(m, c, RetryEnds)
    ensures d == if k < 10 then a.(failures := [D.Task(r, k + 1)]) else a.(failures := [], lost := a.lost + {r})
  {
    hide D.ArgsKey;
    assert [D.Task(r, k)][1..] == [] && [] + [D.Task(r, k + 1)] == [D.Task(r, k + 1)];
    b := Step(m, a, RetryStarts);
    c := Step(m, b, Retrying(false));
    d := Step(m, c, RetryEnds);
  }

  lemma ThreeSteps(m: Setting, start: Agent, events: seq<Event>, a: Agent, b: Agent, c: Agent, d: Agent)
    requires Steps(m, start, events, a) && NeverSucceeds(events)
    requires Possible(m, a, RetryStarts) && b == Step(m, a, RetryStarts)
    requires Possible(m, b, Retrying(false)) && c == Step(m, b, Retrying(false))
    requires Possible(m, c, RetryEnds) && d == Step(m, c, RetryEnds)
    ensures Steps(m, start, events + [RetryStarts, Retrying(false), RetryEnds], d)
    ensures NeverSucceeds(events + [RetryStarts, Retrying(false), RetryEnds])
  {
    hide Steps, Possible, Step;
    StepsSnoc(m, start, events, a, RetryStarts);
    StepsSnoc(m, start, events + [RetryStarts], b, Retrying(false));
    StepsSnoc(m, start, events + [RetryStarts] + [Retrying(false)], c, RetryEnds);
    assert events + [RetryStarts] + [Retrying(false)] + [RetryEnds] ==
      events + [RetryStarts, Retrying(false), RetryEnds];
  }

  lemma FirstFailure(m: Setting, a: Agent, r: D.Request) returns (b: Agent)
    requires a.downloads.queue == [r] && r.FileRequest? && a.failures == []
    ensures Steps(m, a, [Downloading(false)], b) && NeverSucceeds([Downloading(false)])
    ensures b == a.(downloads := D.Pop(a.downloads), failures := [D.Task(r, 1)])
  {
    NoSteps(m, a);
    StepsSnoc(m, a, [], a, Downloading(false));
    b := Step(m, a, Downloading(false));
    assert [] + [D.Task(r, 1)] == [D.Task(r, 1)] && [] + [Downloading(false)] == [Downloading(false)];
  }

  // A request that fails whenever it is tried is tried once from the queue and in
  // ten rounds, and then given up.
  lemma {:induction false} GivenUpAfterTenRounds(m: Setting, a: Agent, r: D.Request, n: nat)
    returns (events: seq<Event>, b: Agent)
    requires a.downloads.queue == [r] && r.FileRequest? && n <= 10
    requires a.failures == [] && a.todo == [] && a.seen == {} && a.kept == []
    ensures Steps(m, a, events, b) && |events| == 1 + 3 * n && NeverSucceeds(events)
    ensures b == a.(downloads := D.Pop(a.downloads), failures := if n < 10 then [D.Task(r, n + 1)] else [],
                    lost := if n < 10 then a.lost else a.lost + {r})
    decreases n
  {
    hide *;
    if n == 0 {
      events := [Downloading(false)];
      b := FirstFailure(m, a, r);
    } else {
      events, b := GivenUpAfterTenRounds(m, a, r, n - 1);
      var p := b;
      var c, d;
      c, d, b := FailingRound(m, p, r, n);
      ThreeSteps(m, a, events, p, c, d, b);
      events := events + [RetryStarts, Retrying(false), RetryEnds];
    }
  }
}
