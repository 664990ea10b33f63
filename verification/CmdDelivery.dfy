// What the calls of the response tunnel achieve: which messages arrive, and what
// a closer leaves behind.
module CmdDelivery {
  import opened CmdTunnel

  // --- Which messages arrive ---

  // At the k-th move thread t asks for the lock and finds the entry.
  predicate FindsLock(calls: seq<Call>, schedule: seq<Move>, k: nat, t: nat) {
    k < |schedule| && schedule[k] == Go(t) &&
    var s := Exec(Begin(calls), schedule[..k]);
    !s.panicked && t < |s.threads| && s.threads[t].pc == Start && s.threads[t].u in s.locks
  }

  // At the k-th move thread t, with the lock, asks for the channel and finds the entry.
  predicate FindsChannel(calls: seq<Call>, schedule: seq<Move>, k: nat, t: nat) {
    k < |schedule| && schedule[k] == Go(t) &&
    var s := Exec(Begin(calls), schedule[..k]);
    !s.panicked && t < |s.threads| && s.threads[t].pc.Entered? && s.threads[t].u in s.buffers
  }

  ghost predicate FoundLock(calls: seq<Call>, schedule: seq<Move>, t: nat) {
    exists j :: 0 <= j < |schedule| && FindsLock(calls, schedule, j, t)
  }

  ghost predicate FoundChannel(calls: seq<Call>, schedule: seq<Move>, t: nat) {
    exists k :: 0 <= k < |schedule| && FindsChannel(calls, schedule, k, t)
  }

  lemma FoundMore(calls: seq<Call>, schedule: seq<Move>, t: nat)
    requires schedule != []
    ensures var front := schedule[..|schedule|-1];
      && (FoundLock(calls, schedule, t) <==> FoundLock(calls, front, t) || FindsLock(calls, schedule, |front|, t))
      && (FoundChannel(calls, schedule, t) <==>
            FoundChannel(calls, front, t) || FindsChannel(calls, schedule, |front|, t))
  {
    hide Exec;
    var front := schedule[..|schedule|-1];
    assert schedule[..|front|] == front;
    forall k | 0 <= k < |front|
      ensures FindsLock(calls, schedule, k, t) <==> FindsLock(calls, front, k, t)
      ensures FindsChannel(calls, schedule, k, t) <==> FindsChannel(calls, front, k, t)
    {
      assert schedule[..k] == front[..k];
    }
    hide FindsLock, FindsChannel;
  }

  predicate AfterLock(pc: Pc) { !pc.Start? && !pc.Buffered? }

  predicate AfterChannel(pc: Pc) { !pc.Start? && !pc.Buffered? && !pc.Waiting? && !pc.Entered? }

  // What a writer or closer has found so far, by where it is, and whether its
  // message is in a channel.
  ghost predicate WhatItFound(th: Thread, lock: bool, channel: bool) {
    && (channel ==> lock && AfterChannel(th.pc))
    && (lock ==> AfterLock(th.pc))
    && (th.pc.Waiting? || InSection(th.pc) ==> lock)
    && (th.pc.Loaded? ==> channel && !th.sent)
    && (th.job.Write? && (th.pc.Leaving? || th.pc.Finished?) ==> (th.sent <==> channel))
    && (th.sent ==> th.pc.Leaving? || th.pc.Finished?)
  }

  // One step of the thread itself.
  lemma OwnStepFinds(s: State, t: nat, lock: bool, channel: bool)
    requires Sane(s) && t < |s.threads| && !s.threads[t].job.Register? && WhatItFound(s.threads[t], lock, channel)
    requires PcInRange(s, s.threads[t].pc) && !s.panicked
    ensures var th := s.threads[t];
      var lock' := lock || (th.pc == Start && th.u in s.locks);
      var channel' := channel || (th.pc.Entered? && th.u in s.buffers);
      t < |StepThread(s, t).threads| && WhatItFound(StepThread(s, t).threads[t], lock', channel')
  {
    assert ThreadOk(s, t);
    hide HoldersOk, EntriesOk;
  }

  lemma {:induction false} RunsFind(calls: seq<Call>, schedule: seq<Move>, t: nat)
    requires t < |calls| && !calls[t].job.Register?
    ensures var s := Exec(Begin(calls), schedule);
      && |s.threads| == |calls| && s.threads[t].job == calls[t].job && s.threads[t].u == calls[t].u
      && WhatItFound(s.threads[t], FoundLock(calls, schedule, t), FoundChannel(calls, schedule, t))
    decreases |schedule|
  {
    if schedule != [] {
      hide Sane, StepThread, WhatItFound, FoundLock, FoundChannel, Begin, SameCalls;
      var front, m := schedule[..|schedule|-1], schedule[|schedule|-1];
      var s := Exec(Begin(calls), front);
      RunsFind(calls, front, t);
      RunsAreSane(calls, front);
      FoundMore(calls, schedule, t);
      StepKeepsCall(s, m, t);
      assert schedule[..|front|] == front;
      if m == Go(t) && !s.panicked {
        InRange(s, t);
        OwnStepFinds(s, t, FoundLock(calls, front, t), FoundChannel(calls, front, t));
      } else if m != Go(t) {
        OtherThreadStays(s, m, t);
      }
    }
  }

  lemma InRange(s: State, t: nat)
    requires Sane(s) && t < |s.threads|
    ensures PcInRange(s, s.threads[t].pc)
  {
    assert ThreadOk(s, t);
  }

  lemma StepKeepsCall(s: State, m: Move, t: nat)
    requires t < |s.threads|
    ensures var s' := Step(s, m);
      |s'.threads| == |s.threads| && s'.threads[t].job == s.threads[t].job && s'.threads[t].u == s.threads[t].u
  {
    StepSameCalls(s, m);
    hide Step;
  }

  // In every run: a writer that has finished has its message in a channel of its
  // UUID, sent once, if and only if it found the lock's entry and then the
  // channel's.
  lemma DeliveredIffFound(calls: seq<Call>, schedule: seq<Move>, t: nat)
    requires t < |calls| && calls[t].job.Write?
    requires t < |Exec(Begin(calls), schedule).threads| && Exec(Begin(calls), schedule).threads[t].pc.Finished?
    ensures var s := Exec(Begin(calls), schedule);
      (exists c, i :: Logged(s, c, i, t) && s.channels[c].owner == calls[t].u) <==>
        FoundLock(calls, schedule, t) && FoundChannel(calls, schedule, t)
  {
    RunsFind(calls, schedule, t);
    RunsConserveMessages(calls, schedule);
    hide Exec, Begin, FoundLock, FoundChannel;
    var s := Exec(Begin(calls), schedule);
    if s.threads[t].sent {
      assert InSomeLog(s, t);
      var c, i :| Logged(s, c, i, t);
      assert s.channels[c].owner == calls[t].u;
    }
  }

  // --- Without a closer nothing is missed ---

  // No closer: what a registration has stored stays stored.
  ghost predicate EntriesStay(s: State, u: Uuid) {
    forall r :: 0 <= r < |s.threads| && s.threads[r].u == u && s.threads[r].job.Register? ==>
      && (s.threads[r].pc.Buffered? || s.threads[r].pc.Finished? ==> u in s.buffers)
      && (s.threads[r].pc.Finished? ==> u in s.locks)
  }

  lemma EntriesStayStep(s: State, m: Move, u: Uuid)
    requires Sane(s) && NoCloser(s, u) && EntriesStay(s, u)
    ensures EntriesStay(Step(s, m), u)
    ensures u in s.buffers ==> u in Step(s, m).buffers
    ensures u in s.locks ==> u in Step(s, m).locks
  {
    var s' := Step(s, m);
    StepSameCalls(s, m);
    if m.Go? && m.t < |s.threads| { assert ThreadOk(s, m.t); }
    EntriesKept(s, m, u);
    forall r | 0 <= r < |s'.threads| && s'.threads[r].u == u && s'.threads[r].job.Register?
      ensures s'.threads[r].pc.Buffered? || s'.threads[r].pc.Finished? ==> u in s'.buffers
      ensures s'.threads[r].pc.Finished? ==> u in s'.locks
    {
      if m != Go(r) { OtherThreadStays(s, m, r); } else { RegisterStep(s, r); }
    }
    hide Step, Sane;
  }

  lemma EntriesKept(s: State, m: Move, u: Uuid)
    requires Sane(s) && NoCloser(s, u)
    ensures u in s.buffers ==> u in Step(s, m).buffers
    ensures u in s.locks ==> u in Step(s, m).locks
  {
    if m.Go? && m.t < |s.threads| { assert ThreadOk(s, m.t); }
    hide HoldersOk, EntriesOk;
  }

  lemma RegisterStep(s: State, r: nat)
    requires Sane(s) && r < |s.threads| && s.threads[r].job.Register?
    ensures var (th, s') := (s.threads[r], Step(s, Go(r)));
      && r < |s'.threads|
      && (s'.threads[r].pc.Buffered? ==> th.pc.Buffered? || th.u in s'.buffers)
      && (s'.threads[r].pc.Finished? && !th.pc.Finished? ==> th.u in s'.locks && th.pc.Buffered?)
  {
    assert ThreadOk(s, r);
    hide HoldersOk, EntriesOk;
  }

  lemma {:induction false} RunsKeepEntries(calls: seq<Call>, schedule: seq<Move>, u: Uuid)
    requires forall t :: 0 <= t < |calls| && calls[t].u == u ==> !calls[t].job.Close?
    ensures EntriesStay(Exec(Begin(calls), schedule), u) && NoCloser(Exec(Begin(calls), schedule), u)
    decreases |schedule|
  {
    RunsAreSane(calls, schedule);
    if schedule != [] {
      var front := schedule[..|schedule|-1];
      RunsKeepEntries(calls, front, u);
      RunsAreSane(calls, front);
      hide Sane, Step, EntriesStay;
      EntriesStayStep(Exec(Begin(calls), front), schedule[|schedule|-1], u);
    }
  }

  // A panic ends the program.
  lemma {:induction false} PanicFreezes(s: State, a: seq<Move>, b: seq<Move>)
    requires Exec(s, a).panicked
    ensures Exec(s, a + b) == Exec(s, a)
    decreases |b|
  {
    if b == [] {
      assert a + b == a;
    } else {
      PanicFreezes(s, a, b[..|b|-1]);
      assert (a + b)[..|a + b|-1] == a + b[..|b|-1];
    }
  }

  // Past its start with the entries in place, a writer finds the channel or has
  // yet to ask for it.
  ghost predicate Finding(s: State, u: Uuid, t: nat, channel: bool) {
    u in s.buffers && t < |s.threads| && s.threads[t].u == u &&
    (channel || s.threads[t].pc.Waiting? || s.threads[t].pc.Entered?)
  }

  lemma FindingStep(s: State, m: Move, u: Uuid, t: nat, channel: bool)
    requires Sane(s) && NoCloser(s, u) && Finding(s, u, t, channel) && !s.threads[t].job.Register?
    ensures Finding(Step(s, m), u, t, channel || (m == Go(t) && !s.panicked && s.threads[t].pc.Entered?))
  {
    EntriesKept(s, m, u);
    StepSameCalls(s, m);
    assert ThreadOk(s, t);
    if m != Go(t) { OtherThreadStays(s, m, t); } else { AskingStep(s, t); }
    hide Step, Sane;
  }

  lemma AskingStep(s: State, t: nat)
    requires t < |s.threads|
    ensures t < |Step(s, Go(t)).threads|
    ensures s.threads[t].pc.Waiting? ==>
      Step(s, Go(t)).threads[t].pc.Waiting? || Step(s, Go(t)).threads[t].pc.Entered?
    ensures s.panicked ==> Step(s, Go(t)) == s
  {
  }

  lemma {:induction false} RunsFindChannel(calls: seq<Call>, schedule: seq<Move>, k: nat, t: nat)
    requires t < |calls| && calls[t].job.Write? && FindsLock(calls, schedule, k, t) && k < |schedule|
    requires calls[t].u in Exec(Begin(calls), schedule[..k]).buffers
    requires forall o :: 0 <= o < |calls| && calls[o].u == calls[t].u ==> !calls[o].job.Close?
    ensures Finding(Exec(Begin(calls), schedule), calls[t].u, t, FoundChannel(calls, schedule, t))
    decreases |schedule|
  {
    hide Sane, Step, Begin, FoundChannel, EntriesStay, StepThread, Finding;
    var front, u := schedule[..|schedule|-1], calls[t].u;
    var s := Exec(Begin(calls), front);
    RunsAreSane(calls, front);
    RunsKeepEntries(calls, front, u);
    FoundMore(calls, schedule, t);
    RunsFind(calls, front, t);
    hide WhatItFound;
    assert schedule[..|front|] == front;
    if k == |front| {
      FirstFinding(calls, s, t);
    } else {
      assert front[..k] == schedule[..k];
      RunsFindChannel(calls, front, k, t);
      FindingHas(s, u, t, FoundChannel(calls, front, t));
      FindingStep(s, schedule[|front|], u, t, FoundChannel(calls, front, t));
      hide FindsLock;
    }
  }

  lemma FindingHas(s: State, u: Uuid, t: nat, channel: bool)
    requires Finding(s, u, t, channel)
    ensures u in s.buffers
  {
  }

  lemma FirstFinding(calls: seq<Call>, s: State, t: nat)
    requires t < |calls| && Sane(s) && NoCloser(s, calls[t].u) && SameCalls(Begin(calls), s) && calls[t].job.Write?
    requires !s.panicked && t < |s.threads| && s.threads[t].pc == Start && calls[t].u in s.locks
    requires calls[t].u in s.buffers
    ensures forall channel :: Finding(Step(s, Go(t)), calls[t].u, t, channel)
  {
    AsksFirst(s, t);
    EntriesKept(s, Go(t), calls[t].u);
    StepSameCalls(s, Go(t));
    hide Step, Sane;
  }

  lemma AsksFirst(s: State, t: nat)
    requires !s.panicked && t < |s.threads| && s.threads[t].pc == Start && !s.threads[t].job.Register?
    requires s.threads[t].u in s.locks
    ensures t < |Step(s, Go(t)).threads| && Step(s, Go(t)).threads[t].pc.Waiting?
  {
  }

  // If no call closes the UUID and a registration of it has finished when a
  // writer starts, then the writer, once finished, has its message in a channel.
  lemma RegisteredIsDelivered(calls: seq<Call>, schedule: seq<Move>, k: nat, r: nat, t: nat)
    requires t < |calls| && calls[t].job.Write? && r < |calls| && calls[r].job.Register? && calls[r].u == calls[t].u
    requires forall o :: 0 <= o < |calls| && calls[o].u == calls[t].u ==> !calls[o].job.Close?
    requires k < |schedule| && schedule[k] == Go(t)
    requires var s := Exec(Begin(calls), schedule[..k]);
      |s.threads| == |calls| && s.threads[t].pc == Start && s.threads[r].pc == Finished
    requires var s := Exec(Begin(calls), schedule); |s.threads| == |calls| && s.threads[t].pc == Finished
    ensures var s := Exec(Begin(calls), schedule);
      exists c, i :: Logged(s, c, i, t) && s.channels[c].owner == calls[t].u
  {
    var s := Exec(Begin(calls), schedule[..k]);
    assert schedule[..k] + schedule[k..] == schedule;
    if s.panicked {
      PanicFreezes(Begin(calls), schedule[..k], schedule[k..]);
      assert false;
    }
    RunsAreSane(calls, schedule[..k]);
    RunsKeepEntries(calls, schedule[..k], calls[t].u);
    assert FindsLock(calls, schedule, k, t);
    RunsFindChannel(calls, schedule, k, t);
    DeliveredIffFound(calls, schedule, t);
    hide Exec, Begin, FindsLock, FoundChannel;
  }

  // --- The reader makes room ---

  // A jammed writer can go on as soon as the reader takes one message, and then
  // its own is the last in the channel.
  lemma ReceiveEndsJam(s: State, w: nat)
    requires Jammed(s, w) && !s.panicked && s.channels[s.threads[w].pc.ch].taken < |s.channels[s.threads[w].pc.ch].log|
    requires |s.channels[s.threads[w].pc.ch].log| <= s.channels[s.threads[w].pc.ch].taken + 200
    ensures var (ch, s') := (s.threads[w].pc.ch, Step(Step(s, Receive(s.threads[w].pc.ch)), Go(w)));
      && !s'.panicked && ch < |s'.channels| && s'.threads[w].pc.Leaving?
      && s'.channels[ch].log == s.channels[ch].log + [w] && s'.channels[ch].taken == s.channels[ch].taken + 1
  {
  }

  // --- What a closer leaves ---

  ghost predicate RegistersDone(s: State, u: Uuid) {
    forall r :: 0 <= r < |s.threads| && s.threads[r].u == u && s.threads[r].job.Register? ==> s.threads[r].pc.Finished?
  }

  // Where a closer of u is past deleting an entry, u has none and gets none again.
  ghost predicate CleanedUp(s: State, u: Uuid) {
    forall t :: 0 <= t < |s.threads| && s.threads[t].u == u && s.threads[t].job.Close? ==>
      && (s.threads[t].pc.Waiting? || InSection(s.threads[t].pc) ==> RegistersDone(s, u))
      && (s.threads[t].pc.Dropped? || s.threads[t].pc.Leaving? ==> u !in s.buffers)
      && (s.threads[t].pc.Leaving? ==> u !in s.locks)
  }

  ghost predicate Gone(s: State, u: Uuid) { RegistersDone(s, u) && u !in s.buffers && u !in s.locks }

  // Only a registration stores entries.
  lemma NoNewEntries(s: State, m: Move, u: Uuid)
    requires Sane(s) && RegistersDone(s, u)
    ensures RegistersDone(Step(s, m), u)
    ensures u !in s.buffers ==> u !in Step(s, m).buffers
    ensures u !in s.locks ==> u !in Step(s, m).locks
  {
    StepSameCalls(s, m);
    if m.Go? && m.t < |s.threads| { assert ThreadOk(s, m.t); }
    NothingStored(s, m, u);
    forall r | 0 <= r < |s.threads| && s.threads[r].u == u && s.threads[r].job.Register?
      ensures Step(s, m).threads[r].pc.Finished?
    {
      if m != Go(r) { OtherThreadStays(s, m, r); } else { FinishedStays(s, r); }
    }
    hide Step, Sane;
  }

  lemma NothingStored(s: State, m: Move, u: Uuid)
    requires Sane(s) && RegistersDone(s, u)
    ensures u !in s.buffers ==> u !in Step(s, m).buffers
    ensures u !in s.locks ==> u !in Step(s, m).locks
  {
    if m.Go? && m.t < |s.threads| { assert ThreadOk(s, m.t); }
    hide HoldersOk, EntriesOk;
  }

  lemma FinishedStays(s: State, t: nat)
    requires t < |s.threads| && s.threads[t].pc.Finished?
    ensures Step(s, Go(t)) == s
  {
  }

  // One step of a closer.
  lemma CloserStep(s: State, t: nat)
    requires Sane(s) && t < |s.threads| && s.threads[t].job.Close? && !s.panicked
    ensures var (th, s') := (s.threads[t], Step(s, Go(t)));
      && t < |s'.threads|
      && (s'.threads[t].pc.Dropped? ==> th.pc.Dropped? || th.u !in s'.buffers)
      && (s'.threads[t].pc.Dropped? ==> !th.pc.Start?)
      && (s'.threads[t].pc.Leaving? && !th.pc.Leaving? ==>
            th.pc.Dropped? && s'.buffers == s.buffers && th.u !in s'.locks)
      && (s'.threads[t].pc.Waiting? && !th.pc.Waiting? ==> th.pc.Start? && th.u in s.locks)
      && (InSection(s'.threads[t].pc) ==> th.pc.Waiting? || InSection(th.pc))
  {
    assert ThreadOk(s, t);
    hide HoldersOk, EntriesOk;
  }

  // With one registration, who has found the lock knows that it is done.
  lemma LockMeansDone(s: State, u: Uuid)
    requires Sane(s) && Once(s, u) && u in s.locks
    ensures RegistersDone(s, u)
  {
    assert EntriesOk(s);
    forall r | 0 <= r < |s.threads| && s.threads[r].u == u && s.threads[r].job.Register?
      ensures s.threads[r].pc.Finished?
    {
      assert RegisterOf(s, u, r) && s.mutexes[s.locks[u]].owner == u;
    }
  }

  lemma CleanedUpStep(s: State, m: Move, u: Uuid)
    requires Sane(s) && Once(s, u) && CleanedUp(s, u)
    ensures CleanedUp(Step(s, m), u)
  {
    var s' := Step(s, m);
    StepSameCalls(s, m);
    if u in s.locks { LockMeansDone(s, u); }
    if RegistersDone(s, u) { NoNewEntries(s, m, u); }
    forall t | 0 <= t < |s'.threads| && s'.threads[t].u == u && s'.threads[t].job.Close?
      ensures s'.threads[t].pc.Waiting? || InSection(s'.threads[t].pc) ==> RegistersDone(s', u)
      ensures s'.threads[t].pc.Dropped? || s'.threads[t].pc.Leaving? ==> u !in s'.buffers
      ensures s'.threads[t].pc.Leaving? ==> u !in s'.locks
    {
      if m != Go(t) { OtherThreadStays(s, m, t); } else if !s.panicked { CloserStep(s, t); }
    }
    hide Step, Sane, Once, RegistersDone;
  }

  // With at most one registration of a UUID: a closer that found the lock's entry
  // and has finished leaves neither entry, and none comes back.
  ghost predicate AtMostOneRegistration(calls: seq<Call>, u: Uuid) {
    forall t, o :: 0 <= t < o < |calls| && calls[t].u == u && calls[o].u == u ==>
      !(calls[t].job.Register? && calls[o].job.Register?)
  }

  lemma BeginOnce(calls: seq<Call>, u: Uuid)
    requires AtMostOneRegistration(calls, u)
    ensures OneRegister(Begin(calls), u) && Once(Begin(calls), u) && CleanedUp(Begin(calls), u)
  {
  }

  lemma {:induction false} RunsCleanUp(calls: seq<Call>, schedule: seq<Move>, u: Uuid)
    requires AtMostOneRegistration(calls, u)
    ensures var s := Exec(Begin(calls), schedule); OneRegister(s, u) && Once(s, u) && CleanedUp(s, u)
    decreases |schedule|
  {
    RunsAreSane(calls, schedule);
    BeginOnce(calls, u);
    if schedule != [] {
      var front, m := schedule[..|schedule|-1], schedule[|schedule|-1];
      var s := Exec(Begin(calls), front);
      hide Sane, Step, CleanedUp, Once, OneRegister, Begin;
      RunsCleanUp(calls, front, u);
      RunsAreSane(calls, front);
      StepSameCalls(s, m);
      SameMix(s, Step(s, m), u);
      StepOnce(s, m, u);
      CleanedUpStep(s, m, u);
    }
  }

  // A closer on its way out leaves u without entries for good.
  lemma LeavingIsGone(s: State, m: Move, u: Uuid, t: nat)
    requires Sane(s) && Once(s, u) && CleanedUp(s, u) && t < |s.threads| && s.threads[t].u == u
    requires s.threads[t].job.Close? && (s.threads[t].pc.Leaving? || Gone(s, u))
    ensures Gone(Step(s, m), u)
  {
    assert Gone(s, u);
    hide Sane, Once, CleanedUp, RegistersDone;
    NoNewEntries(s, m, u);
  }

  lemma {:induction false} CloserCleansUp(calls: seq<Call>, schedule: seq<Move>, t: nat)
    requires t < |calls| && calls[t].job.Close? && AtMostOneRegistration(calls, calls[t].u)
    requires FoundLock(calls, schedule, t)
    ensures var (s, u) := (Exec(Begin(calls), schedule), calls[t].u);
      && |s.threads| == |calls|
      && (s.threads[t].pc.Finished? || s.threads[t].pc.Leaving? ==>
            u !in s.buffers && u !in s.locks && RegistersDone(s, u))
    decreases |schedule|
  {
    var u := calls[t].u;
    RunsAreSane(calls, schedule);
    RunsCleanUp(calls, schedule, u);
    if schedule != [] {
      var front, m := schedule[..|schedule|-1], schedule[|schedule|-1];
      var s := Exec(Begin(calls), front);
      RunsAreSane(calls, front);
      RunsCleanUp(calls, front, u);
      RunsFind(calls, front, t);
      FoundMore(calls, schedule, t);
      assert schedule[..|front|] == front;
      if FoundLock(calls, front, t) {
        CloserCleansUp(calls, front, t);
      }
      StepSameCalls(s, m);
      if m != Go(t) { OtherThreadStays(s, m, t); } else if !s.panicked { CloserStep(s, t); LastStep(s, t); }
      if s.threads[t].pc.Leaving? || Gone(s, u) { LeavingIsGone(s, m, u, t); }
      hide Sane, Once, Step, Begin, FoundLock, RegistersDone;
    }
  }

  // A closer finishes when it finds no lock or by releasing the one it took.
  lemma LastStep(s: State, t: nat)
    requires Sane(s) && t < |s.threads| && s.threads[t].job.Close? && !s.panicked
    ensures t < |Step(s, Go(t)).threads|
    ensures Step(s, Go(t)).threads[t].pc.Finished? && !s.threads[t].pc.Finished? ==>
      s.threads[t].pc.Leaving? || (s.threads[t].pc.Start? && s.threads[t].u !in s.locks)
  {
    assert ThreadOk(s, t);
    hide HoldersOk, EntriesOk;
  }

  // --- What a closer closes ---

  ghost predicate OneClosed(s: State, u: Uuid) {
    exists c :: 0 <= c < |s.channels| && s.channels[c].owner == u && s.channels[c].closed
  }

  lemma ClosedStays(s: State, m: Move, c: nat)
    requires c < |s.channels| && s.channels[c].closed
    ensures var s' := Step(s, m);
      c < |s'.channels| && s'.channels[c].owner == s.channels[c].owner && s'.channels[c].closed
  {
    hide StoreLock, FindLock, TakeLock, FindChannel, DropChannel, DropLock, ReleaseLock;
    if m.Go? && m.t < |s.threads| && !s.threads[m.t].pc.Loaded? &&
      !(s.threads[m.t].pc.Start? && s.threads[m.t].job.Register?)
    {
      KeepsChannels(s, m);
    }
  }

  // The closer's own step: it has just found the channel, or it closes it.
  lemma ClosingStep(s: State, t: nat)
    requires Sane(s) && t < |s.threads| && s.threads[t].job.Close?
    requires s.threads[t].pc.Loaded? || (s.threads[t].pc.Entered? && s.threads[t].u in s.buffers)
    ensures var s' := Step(s, Go(t));
      t < |s'.threads| && (s'.threads[t].pc.Loaded? || s.panicked || OneClosed(s', s.threads[t].u))
    ensures s.threads[t].pc.Loaded? && s.panicked ==> Step(s, Go(t)).threads[t].pc.Loaded?
  {
    assert ThreadOk(s, t);
    hide HoldersOk, EntriesOk;
    if s.threads[t].pc.Loaded? && !s.panicked && !s.channels[s.threads[t].pc.ch].closed {
      assert Step(s, Go(t)).channels[s.threads[t].pc.ch].closed;
    }
  }

  // About to close the channel it has found, or a channel is closed.
  ghost predicate Closing(s: State, u: Uuid, t: nat) {
    t < |s.threads| && (s.threads[t].pc.Loaded? || OneClosed(s, u))
  }

  lemma ClosingStays(s: State, m: Move, u: Uuid, t: nat)
    requires Sane(s) && Closing(s, u, t) && s.threads[t].job.Close? && s.threads[t].u == u
    ensures Closing(Step(s, m), u, t)
  {
    StepKeepsCall(s, m, t);
    hide Step, Sane;
    if s.threads[t].pc.Loaded? {
      if m == Go(t) { ClosingStep(s, t); } else { OtherThreadStays(s, m, t); }
    } else {
      var c :| 0 <= c < |s.channels| && s.channels[c].owner == u && s.channels[c].closed;
      ClosedStays(s, m, c);
    }
  }

  // In every run: a closer that has found the channel is about to close it or has
  // left a channel of its UUID closed.
  lemma {:induction false} CloserCloses(calls: seq<Call>, schedule: seq<Move>, t: nat)
    requires t < |calls| && calls[t].job.Close? && FoundChannel(calls, schedule, t)
    ensures Closing(Exec(Begin(calls), schedule), calls[t].u, t)
    decreases |schedule|
  {
    assert schedule != [];
    var front, m := schedule[..|schedule|-1], schedule[|schedule|-1];
    var s := Exec(Begin(calls), front);
    assert schedule[..|front|] == front;
    assert FindsChannel(calls, schedule, |front|, t) ==>
      m == Go(t) && !s.panicked && t < |s.threads| && s.threads[t].pc.Entered? && s.threads[t].u in s.buffers;
    hide Sane, Step, WhatItFound, FoundLock, FoundChannel, FindsChannel, FindsLock, Begin, SameCalls, Closing;
    RunsAreSane(calls, front);
    RunsFind(calls, front, t);
    FoundMore(calls, schedule, t);
    if FoundChannel(calls, front, t) {
      CloserCloses(calls, front, t);
      ClosingStays(s, m, calls[t].u, t);
    } else {
      ClosingStep(s, t);
      FoldClosing(Step(s, m), calls[t].u, t);
    }
  }

  lemma FoldClosing(s: State, u: Uuid, t: nat)
    requires t < |s.threads| && (s.threads[t].pc.Loaded? || OneClosed(s, u))
    ensures Closing(s, u, t)
  {
  }
}
