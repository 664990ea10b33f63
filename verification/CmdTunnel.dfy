// The response tunnel of the command manager: for every command a buffered
// channel and a lock are registered under the command's UUID; writers and
// closers look up the lock, take it, and only then touch the channel; the
// closer deletes both the channel and the lock it still holds.
//
// Every call is a thread with a program counter, and every access to a shared
// map, a lock or a channel is one step. Any number of threads, for any number of
// UUIDs, may interleave in any order.
module CmdTunnel {
  import opened Wrappers

  const CAPACITY := 200

  type Uuid = string

  datatype Job = Register | Write | Close

  // The step a thread takes next; l is the lock it found, ch the channel.
  datatype Pc =
    | Start
    | Buffered                      // Register: channel stored, lock not yet
    | Waiting(l: nat)               // found the lock, has to take it
    | Entered(l: nat)               // took it, has to look up the channel
    | Loaded(l: nat, ch: nat)       // found the channel, has to send or close
    | Closed(l: nat)                // Close: has to delete the channel entry
    | Dropped(l: nat)               // Close: has to delete the lock entry
    | Leaving(l: nat)               // has to release the lock
    | Finished

  // sent: the thread's message is in the channel or was taken from it.
  datatype Thread = Thread(job: Job, u: Uuid, pc: Pc, sent: bool)

  // log: the messages (named by the thread that sent them) in the order sent;
  // the reader took the first `taken` of them.
  datatype Channel = Channel(owner: Uuid, log: seq<nat>, taken: nat, closed: bool)

  datatype Mutex = Mutex(owner: Uuid, holder: Option<nat>)

  datatype State = State(threads: seq<Thread>, buffers: map<Uuid, nat>, locks: map<Uuid, nat>,
                         channels: seq<Channel>, mutexes: seq<Mutex>, panicked: bool)

  // A call to be made: what it does and for which UUID.
  datatype Call = Call(job: Job, u: Uuid)

  function Begin(calls: seq<Call>): State {
    State(seq(|calls|, t requires 0 <= t < |calls| => Thread(calls[t].job, calls[t].u, Start, false)),
          map[], map[], [], [], false)
  }

  predicate InSection(pc: Pc) { pc.Entered? || pc.Loaded? || pc.Closed? || pc.Dropped? || pc.Leaving? }

  predicate Full(c: Channel) { |c.log| >= c.taken + CAPACITY }

  function At(s: State, t: nat, pc: Pc): State
    requires t < |s.threads|
  {
    s.(threads := s.threads[t := s.threads[t].(pc := pc)])
  }

  // Indices that a state of the program always keeps in range.
  predicate PcInRange(s: State, pc: Pc) {
    && (pc.Waiting? || InSection(pc) ==> pc.l < |s.mutexes|)
    && (pc.Loaded? ==> pc.ch < |s.channels|)
  }

  // --- The steps of one thread; each requires the thread to be at that step ---

  function StoreChannel(s: State, t: nat): State
    requires t < |s.threads|
  {
    var u := s.threads[t].u;
    At(s, t, Buffered).(channels := s.channels + [Channel(u, [], 0, false)], buffers := s.buffers[u := |s.channels|])
  }

  function StoreLock(s: State, t: nat): State
    requires t < |s.threads|
  {
    var u := s.threads[t].u;
    At(s, t, Finished).(mutexes := s.mutexes + [Mutex(u, None)], locks := s.locks[u := |s.mutexes|])
  }

  function FindLock(s: State, t: nat): State
    requires t < |s.threads|
  {
    var u := s.threads[t].u;
    At(s, t, if u in s.locks then Waiting(s.locks[u]) else Finished)
  }

  function TakeLock(s: State, t: nat, l: nat): State
    requires t < |s.threads| && l < |s.mutexes|
  {
    if s.mutexes[l].holder.Some? then s
    else At(s, t, Entered(l)).(mutexes := s.mutexes[l := s.mutexes[l].(holder := Some(t))])
  }

  function FindChannel(s: State, t: nat, l: nat): State
    requires t < |s.threads|
  {
    var th := s.threads[t];
    At(s, t, if th.u in s.buffers then Loaded(l, s.buffers[th.u]) else if th.job.Close? then Closed(l) else Leaving(l))
  }

  function Send(s: State, t: nat, l: nat, ch: nat): State
    requires t < |s.threads| && ch < |s.channels|
  {
    var c := s.channels[ch];
    if c.closed then s.(panicked := true)
    else if Full(c) then s
    else s.(threads := s.threads[t := s.threads[t].(pc := Leaving(l), sent := true)],
            channels := s.channels[ch := c.(log := c.log + [t])])
  }

  function CloseChannel(s: State, t: nat, l: nat, ch: nat): State
    requires t < |s.threads| && ch < |s.channels|
  {
    if s.channels[ch].closed then s.(panicked := true)
    else At(s, t, Closed(l)).(channels := s.channels[ch := s.channels[ch].(closed := true)])
  }

  function DropChannel(s: State, t: nat, l: nat): State
    requires t < |s.threads|
  {
    At(s, t, Dropped(l)).(buffers := s.buffers - {s.threads[t].u})
  }

  function DropLock(s: State, t: nat, l: nat): State
    requires t < |s.threads|
  {
    At(s, t, Leaving(l)).(locks := s.locks - {s.threads[t].u})
  }

  function ReleaseLock(s: State, t: nat, l: nat): State
    requires t < |s.threads| && l < |s.mutexes|
  {
    At(s, t, Finished).(mutexes := s.mutexes[l := s.mutexes[l].(holder := None)])
  }

  // One step of thread t. A thread that cannot move leaves the state as it is;
  // sending on a closed channel and closing one twice panic.
  function StepThread(s: State, t: nat): State
    requires t < |s.threads| && PcInRange(s, s.threads[t].pc)
  {
    match s.threads[t].pc
    case Start => if s.threads[t].job.Register? then StoreChannel(s, t) else FindLock(s, t)
    case Buffered => StoreLock(s, t)
    case Waiting(l) => TakeLock(s, t, l)
    case Entered(l) => FindChannel(s, t, l)
    case Loaded(l, ch) => if s.threads[t].job.Close? then CloseChannel(s, t, l, ch) else Send(s, t, l, ch)
    case Closed(l) => DropChannel(s, t, l)
    case Dropped(l) => DropLock(s, t, l)
    case Leaving(l) => ReleaseLock(s, t, l)
    case Finished => s
  }

  datatype Move = Go(t: nat) | Receive(ch: nat)

  // A panic ends the program.
  function Step(s: State, m: Move): State {
    if s.panicked then s
    else match m
      case Go(t) => if t < |s.threads| && PcInRange(s, s.threads[t].pc) then StepThread(s, t) else s
      case Receive(ch) =>
        if ch < |s.channels| && s.channels[ch].taken < |s.channels[ch].log|
        then s.(channels := s.channels[ch := s.channels[ch].(taken := s.channels[ch].taken + 1)])
        else s
  }

  // The state a schedule leads to.
  function Exec(s: State, schedule: seq<Move>): State
    decreases |schedule|
  {
    if schedule == [] then s else Step(Exec(s, schedule[..|schedule|-1]), schedule[|schedule|-1])
  }

  // --- What every run keeps, however often a UUID is registered ---

  ghost predicate ThreadOk(s: State, t: nat)
    requires t < |s.threads|
  {
    var th := s.threads[t];
    && PcInRange(s, th.pc)
    && (th.pc.Buffered? ==> th.job.Register?)
    && (th.pc.Waiting? || InSection(th.pc) ==> !th.job.Register? && s.mutexes[th.pc.l].owner == th.u)
    && (InSection(th.pc) ==> s.mutexes[th.pc.l].holder == Some(t))
    && (th.pc.Loaded? ==> s.channels[th.pc.ch].owner == th.u)
    && (th.pc.Closed? || th.pc.Dropped? ==> th.job.Close?)
    && (th.sent ==> th.job.Write? && (th.pc.Leaving? || th.pc.Finished?))
  }

  ghost predicate ThreadsOk(s: State) { forall t :: 0 <= t < |s.threads| ==> ThreadOk(s, t) }

  // A held lock is held by a thread that is using it.
  ghost predicate HoldersOk(s: State) {
    forall l :: 0 <= l < |s.mutexes| && s.mutexes[l].holder.Some? ==>
      var t := s.mutexes[l].holder.value;
      t < |s.threads| && InSection(s.threads[t].pc) && s.threads[t].pc.l == l
  }

  ghost predicate EntriesOk(s: State) {
    && (forall u :: u in s.buffers ==> s.buffers[u] < |s.channels| && s.channels[s.buffers[u]].owner == u)
    && (forall u :: u in s.locks ==> s.locks[u] < |s.mutexes| && s.mutexes[s.locks[u]].owner == u)
  }

  ghost predicate Sane(s: State) { ThreadsOk(s) && HoldersOk(s) && EntriesOk(s) }

  lemma BeginSane(calls: seq<Call>)
    ensures Sane(Begin(calls))
  {
  }

  lemma StoreChannelSane(s: State, t: nat)
    requires Sane(s) && t < |s.threads| && s.threads[t].pc.Start? && s.threads[t].job.Register?
    ensures Sane(StoreChannel(s, t))
  {
    assert ThreadOk(s, t);
    forall o | 0 <= o < |s.threads| ensures ThreadOk(StoreChannel(s, t), o) { assert ThreadOk(s, o); }
  }

  lemma StoreLockSane(s: State, t: nat)
    requires Sane(s) && t < |s.threads| && s.threads[t].pc.Buffered?
    ensures Sane(StoreLock(s, t))
  {
    assert ThreadOk(s, t);
    forall o | 0 <= o < |s.threads| ensures ThreadOk(StoreLock(s, t), o) { assert ThreadOk(s, o); }
  }

  lemma FindLockSane(s: State, t: nat)
    requires Sane(s) && t < |s.threads| && s.threads[t].pc.Start? && !s.threads[t].job.Register?
    ensures Sane(FindLock(s, t))
  {
    assert ThreadOk(s, t);
    forall o | 0 <= o < |s.threads| ensures ThreadOk(FindLock(s, t), o) { assert ThreadOk(s, o); }
  }

  lemma TakeLockSane(s: State, t: nat, l: nat)
    requires Sane(s) && t < |s.threads| && s.threads[t].pc == Waiting(l) && l < |s.mutexes|
    ensures Sane(TakeLock(s, t, l))
  {
    assert ThreadOk(s, t);
    forall o | 0 <= o < |s.threads| ensures ThreadOk(TakeLock(s, t, l), o) { assert ThreadOk(s, o); }
  }

  lemma FindChannelSane(s: State, t: nat, l: nat)
    requires Sane(s) && t < |s.threads| && s.threads[t].pc == Entered(l)
    ensures Sane(FindChannel(s, t, l))
  {
    assert ThreadOk(s, t);
    forall o | 0 <= o < |s.threads| ensures ThreadOk(FindChannel(s, t, l), o) { assert ThreadOk(s, o); }
  }

  lemma SendThreads(s: State, t: nat, l: nat, ch: nat)
    requires ThreadsOk(s) && t < |s.threads| && s.threads[t].pc == Loaded(l, ch) && !s.threads[t].job.Close? &&
      ch < |s.channels|
    ensures ThreadsOk(Send(s, t, l, ch))
  {
    assert ThreadOk(s, t);
    forall o | 0 <= o < |s.threads| ensures ThreadOk(Send(s, t, l, ch), o) { assert ThreadOk(s, o); }
  }

  lemma SendSane(s: State, t: nat, l: nat, ch: nat)
    requires Sane(s) && t < |s.threads| && s.threads[t].pc == Loaded(l, ch) && !s.threads[t].job.Close? &&
      ch < |s.channels|
    ensures Sane(Send(s, t, l, ch))
  {
    SendThreads(s, t, l, ch);
    assert ThreadOk(s, t);
    hide ThreadsOk, ThreadOk;
  }

  lemma CloseChannelThreads(s: State, t: nat, l: nat, ch: nat)
    requires ThreadsOk(s) && t < |s.threads| && s.threads[t].pc == Loaded(l, ch) && s.threads[t].job.Close? &&
      ch < |s.channels|
    ensures ThreadsOk(CloseChannel(s, t, l, ch))
  {
    assert ThreadOk(s, t);
    forall o | 0 <= o < |s.threads| ensures ThreadOk(CloseChannel(s, t, l, ch), o) { assert ThreadOk(s, o); }
  }

  lemma CloseChannelSane(s: State, t: nat, l: nat, ch: nat)
    requires Sane(s) && t < |s.threads| && s.threads[t].pc == Loaded(l, ch) && s.threads[t].job.Close? &&
      ch < |s.channels|
    ensures Sane(CloseChannel(s, t, l, ch))
  {
    CloseChannelThreads(s, t, l, ch);
    assert ThreadOk(s, t);
    hide ThreadsOk, ThreadOk;
  }

  lemma DropChannelSane(s: State, t: nat, l: nat)
    requires Sane(s) && t < |s.threads| && s.threads[t].pc == Closed(l)
    ensures Sane(DropChannel(s, t, l))
  {
    assert ThreadOk(s, t);
    forall o | 0 <= o < |s.threads| ensures ThreadOk(DropChannel(s, t, l), o) { assert ThreadOk(s, o); }
  }

  lemma DropLockSane(s: State, t: nat, l: nat)
    requires Sane(s) && t < |s.threads| && s.threads[t].pc == Dropped(l)
    ensures Sane(DropLock(s, t, l))
  {
    assert ThreadOk(s, t);
    forall o | 0 <= o < |s.threads| ensures ThreadOk(DropLock(s, t, l), o) { assert ThreadOk(s, o); }
  }

  lemma ReleaseLockSane(s: State, t: nat, l: nat)
    requires Sane(s) && t < |s.threads| && s.threads[t].pc == Leaving(l) && l < |s.mutexes|
    ensures Sane(ReleaseLock(s, t, l))
  {
    assert ThreadOk(s, t);
    forall o | 0 <= o < |s.threads| ensures ThreadOk(ReleaseLock(s, t, l), o) { assert ThreadOk(s, o); }
  }

  // Steps change neither what a thread is to do nor for whom.
  ghost predicate SameCalls(s: State, s': State) {
    |s'.threads| == |s.threads| &&
    forall t :: 0 <= t < |s.threads| ==> s'.threads[t].job == s.threads[t].job && s'.threads[t].u == s.threads[t].u
  }

  lemma StepSameCalls(s: State, m: Move)
    ensures SameCalls(s, Step(s, m))
  {
  }

  lemma StepThreadSane(s: State, t: nat)
    requires Sane(s) && t < |s.threads| && PcInRange(s, s.threads[t].pc)
    ensures Sane(StepThread(s, t))
  {
    assert ThreadOk(s, t);
    hide Sane, StoreChannel, StoreLock, FindLock, TakeLock, FindChannel, Send, CloseChannel, DropChannel, DropLock,
      ReleaseLock;
    match s.threads[t].pc
    case Start => if s.threads[t].job.Register? { StoreChannelSane(s, t); } else { FindLockSane(s, t); }
    case Buffered => StoreLockSane(s, t);
    case Waiting(l) => TakeLockSane(s, t, l);
    case Entered(l) => FindChannelSane(s, t, l);
    case Loaded(l, ch) => if s.threads[t].job.Close? { CloseChannelSane(s, t, l, ch); } else { SendSane(s, t, l, ch); }
    case Closed(l) => DropChannelSane(s, t, l);
    case Dropped(l) => DropLockSane(s, t, l);
    case Leaving(l) => ReleaseLockSane(s, t, l);
    case Finished =>
  }

  lemma ReceiveSane(s: State, ch: nat)
    requires Sane(s)
    ensures Sane(Step(s, Receive(ch)))
  {
    var s' := Step(s, Receive(ch));
    forall t | 0 <= t < |s'.threads| ensures ThreadOk(s', t) { assert ThreadOk(s, t); }
  }

  lemma StepSane(s: State, m: Move)
    requires Sane(s)
    ensures Sane(Step(s, m))
  {
    if m.Receive? { ReceiveSane(s, m.ch); }
    hide Sane, StepThread;
    if m.Go? && m.t < |s.threads| && PcInRange(s, s.threads[m.t].pc) { StepThreadSane(s, m.t); }
  }

  // --- One registration per UUID: nothing is sent on or done to a closed channel ---

  ghost predicate OneRegister(s: State, u: Uuid) {
    forall t, o :: 0 <= t < o < |s.threads| ==>
      !(s.threads[t].job.Register? && s.threads[t].u == u && s.threads[o].job.Register? && s.threads[o].u == u)
  }

  // The closer of u is about to delete the channel it closed.
  ghost predicate BeingDropped(s: State, u: Uuid) {
    exists t :: 0 <= t < |s.threads| && s.threads[t].u == u && s.threads[t].pc.Closed?
  }

  predicate RegisterOf(s: State, u: Uuid, t: int) {
    0 <= t < |s.threads| && s.threads[t].u == u && s.threads[t].job.Register?
  }

  // u has at most one channel and one lock, made by a registration that is past
  // those steps; a closed channel is no longer registered, or about to be
  // deleted; and whoever has looked the channel up finds it registered and open.
  ghost predicate Once(s: State, u: Uuid) {
    && (forall c, d :: 0 <= c < d < |s.channels| ==> !(s.channels[c].owner == u && s.channels[d].owner == u))
    && (forall l, k :: 0 <= l < k < |s.mutexes| ==> !(s.mutexes[l].owner == u && s.mutexes[k].owner == u))
    && (forall c, t :: 0 <= c < |s.channels| && s.channels[c].owner == u && RegisterOf(s, u, t) ==>
      !s.threads[t].pc.Start?)
    && (forall l, t :: 0 <= l < |s.mutexes| && s.mutexes[l].owner == u && RegisterOf(s, u, t) ==>
      s.threads[t].pc.Finished?)
    && (forall c :: 0 <= c < |s.channels| && s.channels[c].owner == u && s.channels[c].closed && u in s.buffers ==>
      BeingDropped(s, u))
    && (forall t ::
          0 <= t < |s.threads| && s.threads[t].u == u && s.threads[t].pc.Loaded? &&
            s.threads[t].pc.ch < |s.channels| ==>
          u in s.buffers && s.buffers[u] == s.threads[t].pc.ch && !s.channels[s.threads[t].pc.ch].closed)
  }

  lemma MutualExclusion(s: State, u: Uuid, t: nat, o: nat)
    requires Sane(s) && Once(s, u) && t < |s.threads| && o < |s.threads|
    requires s.threads[t].u == u && s.threads[o].u == u && InSection(s.threads[t].pc) && InSection(s.threads[o].pc)
    ensures t == o
  {
    assert ThreadOk(s, t) && ThreadOk(s, o);
  }

  lemma StoreChannelOnce(s: State, t: nat, u: Uuid)
    requires Sane(s) && OneRegister(s, u) && Once(s, u) && t < |s.threads| && s.threads[t].pc.Start? &&
      s.threads[t].job.Register?
    ensures Once(StoreChannel(s, t), u)
  {
    assert ThreadOk(s, t);
    forall o | 0 <= o < |s.threads| && o != t ensures StoreChannel(s, t).threads[o] == s.threads[o] && ThreadOk(s, o) {}
    hide HoldersOk, EntriesOk, ThreadsOk, InSection;
  }

  lemma StoreLockOnce(s: State, t: nat, u: Uuid)
    requires Sane(s) && OneRegister(s, u) && Once(s, u) && t < |s.threads| && s.threads[t].pc.Buffered?
    ensures Once(StoreLock(s, t), u)
  {
    assert ThreadOk(s, t);
    forall o | 0 <= o < |s.threads| && o != t ensures StoreLock(s, t).threads[o] == s.threads[o] {}
  }

  lemma FindLockOnce(s: State, t: nat, u: Uuid)
    requires Sane(s) && OneRegister(s, u) && Once(s, u) && t < |s.threads| && s.threads[t].pc.Start? &&
      !s.threads[t].job.Register?
    ensures Once(FindLock(s, t), u)
  {
    assert ThreadOk(s, t);
    forall o | 0 <= o < |s.threads| && o != t ensures FindLock(s, t).threads[o] == s.threads[o] {}
  }

  lemma TakeLockOnce(s: State, t: nat, l: nat, u: Uuid)
    requires Sane(s) && OneRegister(s, u) && Once(s, u) && t < |s.threads| && s.threads[t].pc == Waiting(l) &&
      l < |s.mutexes|
    ensures Once(TakeLock(s, t, l), u)
  {
    assert ThreadOk(s, t);
    forall o | 0 <= o < |s.threads| && o != t ensures TakeLock(s, t, l).threads[o] == s.threads[o] {}
    hide HoldersOk, EntriesOk, OneRegister;
  }

  lemma FindChannelOnce(s: State, t: nat, l: nat, u: Uuid)
    requires Sane(s) && OneRegister(s, u) && Once(s, u) && t < |s.threads| && s.threads[t].pc == Entered(l)
    ensures Once(FindChannel(s, t, l), u)
  {
    assert ThreadOk(s, t);
    forall o | 0 <= o < |s.threads| && o != t ensures FindChannel(s, t, l).threads[o] == s.threads[o] {}
    forall o | 0 <= o < |s.threads| && s.threads[o].u == u == s.threads[t].u && InSection(s.threads[o].pc)
      ensures o == t
    {
      MutualExclusion(s, u, t, o);
    }
  }

  // Once looks at neither messages nor lock holders.
  lemma OnceUnlessSeen(s: State, s': State, t: nat, u: Uuid)
    requires Once(s, u) && t < |s.threads| && SameCalls(s, s')
    requires s'.buffers == s.buffers && |s'.mutexes| == |s.mutexes| && |s'.channels| == |s.channels|
    requires forall l :: 0 <= l < |s.mutexes| ==> s'.mutexes[l].owner == s.mutexes[l].owner
    requires forall c :: 0 <= c < |s.channels| ==>
      s'.channels[c].owner == s.channels[c].owner && s'.channels[c].closed == s.channels[c].closed
    requires forall o :: 0 <= o < |s.threads| && o != t ==> s'.threads[o] == s.threads[o]
    requires s.threads[t].pc.Loaded? && (s'.threads[t].pc == s.threads[t].pc || s'.threads[t].pc.Leaving?) &&
      !s.threads[t].job.Register?
    ensures Once(s', u)
  {
  }

  lemma SendOnce(s: State, t: nat, l: nat, ch: nat, u: Uuid)
    requires Sane(s) && OneRegister(s, u) && Once(s, u) && t < |s.threads| && s.threads[t].pc == Loaded(l, ch) &&
      !s.threads[t].job.Close? && ch < |s.channels|
    ensures Once(Send(s, t, l, ch), u)
  {
    assert !s.threads[t].job.Register? by { assert ThreadOk(s, t); }
    hide Sane, OneRegister, Once;
    OnceUnlessSeen(s, Send(s, t, l, ch), t, u);
  }

  lemma CloseOther(s: State, t: nat, l: nat, ch: nat, u: Uuid)
    requires Once(s, u) && EntriesOk(s) && t < |s.threads| && ch < |s.channels| && s.threads[t].u != u &&
      s.channels[ch].owner != u
    ensures Once(CloseChannel(s, t, l, ch), u)
  {
    var s' := CloseChannel(s, t, l, ch);
    forall o | 0 <= o < |s.threads| && o != t ensures s'.threads[o] == s.threads[o] {}
  }

  // The closer itself is the thread that is about to delete the entry.
  lemma CloseOwn(s: State, t: nat, l: nat, ch: nat, u: Uuid)
    requires Once(s, u) && t < |s.threads| && ch < |s.channels| && s.threads[t].u == u && s.channels[ch].owner == u
    requires s.threads[t].pc == Loaded(l, ch) && !s.channels[ch].closed && !s.threads[t].job.Register?
    requires forall o :: 0 <= o < |s.threads| && s.threads[o].u == u && s.threads[o].pc.Loaded? ==> o == t
    ensures Once(CloseChannel(s, t, l, ch), u)
  {
    var s' := CloseChannel(s, t, l, ch);
    assert s'.threads[t].pc.Closed?;
    assert BeingDropped(s', u);
    forall o | 0 <= o < |s.threads| && o != t ensures s'.threads[o] == s.threads[o] {}
  }

  lemma CloseChannelOnce(s: State, t: nat, l: nat, ch: nat, u: Uuid)
    requires Sane(s) && OneRegister(s, u) && Once(s, u) && t < |s.threads| && s.threads[t].pc == Loaded(l, ch) &&
      s.threads[t].job.Close? && ch < |s.channels|
    ensures Once(CloseChannel(s, t, l, ch), u)
  {
    assert s.channels[ch].owner == s.threads[t].u by { assert ThreadOk(s, t); }
    if s.threads[t].u == u {
      assert !s.channels[ch].closed;
      forall o | 0 <= o < |s.threads| && s.threads[o].u == u && s.threads[o].pc.Loaded? ensures o == t {
        hide Once;
        MutualExclusion(s, u, t, o);
      }
      hide Sane, Once, OneRegister;
      CloseOwn(s, t, l, ch, u);
    } else {
      hide EntriesOk, ThreadsOk, HoldersOk, Once, OneRegister;
      CloseOther(s, t, l, ch, u);
    }
  }

  lemma DropChannelOnce(s: State, t: nat, l: nat, u: Uuid)
    requires Sane(s) && OneRegister(s, u) && Once(s, u) && t < |s.threads| && s.threads[t].pc == Closed(l)
    ensures Once(DropChannel(s, t, l), u)
  {
    assert ThreadOk(s, t);
    forall o | 0 <= o < |s.threads| && o != t ensures DropChannel(s, t, l).threads[o] == s.threads[o] {}
    forall o | 0 <= o < |s.threads| && s.threads[o].u == u == s.threads[t].u && InSection(s.threads[o].pc)
      ensures o == t
    {
      MutualExclusion(s, u, t, o);
    }
  }

  lemma DropLockOnce(s: State, t: nat, l: nat, u: Uuid)
    requires Sane(s) && OneRegister(s, u) && Once(s, u) && t < |s.threads| && s.threads[t].pc == Dropped(l)
    ensures Once(DropLock(s, t, l), u)
  {
    assert ThreadOk(s, t);
    forall o | 0 <= o < |s.threads| && o != t ensures DropLock(s, t, l).threads[o] == s.threads[o] {}
  }

  lemma ReleaseLockOnce(s: State, t: nat, l: nat, u: Uuid)
    requires Sane(s) && OneRegister(s, u) && Once(s, u) && t < |s.threads| && s.threads[t].pc == Leaving(l) &&
      l < |s.mutexes|
    ensures Once(ReleaseLock(s, t, l), u)
  {
    assert ThreadOk(s, t);
    forall o | 0 <= o < |s.threads| && o != t ensures ReleaseLock(s, t, l).threads[o] == s.threads[o] {}
  }
  lemma StepThreadOnce(s: State, t: nat, u: Uuid)
    requires Sane(s) && OneRegister(s, u) && Once(s, u) && t < |s.threads| && PcInRange(s, s.threads[t].pc)
    ensures Once(StepThread(s, t), u)
  {
    assert ThreadOk(s, t);
    hide Sane, Once, StoreChannel, StoreLock, FindLock, TakeLock, FindChannel, Send, CloseChannel, DropChannel,
      DropLock, ReleaseLock;
    match s.threads[t].pc
    case Start => if s.threads[t].job.Register? { StoreChannelOnce(s, t, u); } else { FindLockOnce(s, t, u); }
    case Buffered => StoreLockOnce(s, t, u);
    case Waiting(l) => TakeLockOnce(s, t, l, u);
    case Entered(l) => FindChannelOnce(s, t, l, u);
    case Loaded(l, ch) => if s.threads[t].job.Close? { CloseChannelOnce(s, t, l, ch, u); }
      else { SendOnce(s, t, l, ch, u); }
    case Closed(l) => DropChannelOnce(s, t, l, u);
    case Dropped(l) => DropLockOnce(s, t, l, u);
    case Leaving(l) => ReleaseLockOnce(s, t, l, u);
    case Finished =>
  }

  lemma StepOnce(s: State, m: Move, u: Uuid)
    requires Sane(s) && OneRegister(s, u) && Once(s, u)
    ensures Once(Step(s, m), u)
  {
    hide Sane, StepThread;
    if m.Go? && m.t < |s.threads| && PcInRange(s, s.threads[m.t].pc) { hide Once; StepThreadOnce(s, m.t, u); }
  }

  // Only a closer that has looked a channel up closes it, and only a thread that
  // has looked up a closed channel panics.
  lemma WhoCloses(s: State, m: Move, c: nat)
    requires c < |Step(s, m).channels| && Step(s, m).channels[c].closed
    ensures c < |s.channels| && Step(s, m).channels[c].owner == s.channels[c].owner
    ensures s.channels[c].closed ||
              (m.Go? && m.t < |s.threads| && s.threads[m.t].job.Close? && s.threads[m.t].pc.Loaded? &&
                s.threads[m.t].pc.ch == c
               && Step(s, m).threads[m.t].pc.Closed?)
  {
    hide StoreLock, FindLock, TakeLock, FindChannel, DropChannel, DropLock, ReleaseLock;
    if m.Go? && m.t < |s.threads| && !s.threads[m.t].pc.Loaded? &&
      !(s.threads[m.t].pc.Start? && s.threads[m.t].job.Register?) {
      KeepsChannels(s, m);
    }
  }

  // The steps that leave every channel alone.
  lemma KeepsChannels(s: State, m: Move)
    requires m.Go? && m.t < |s.threads| && !s.threads[m.t].pc.Loaded? &&
      !(s.threads[m.t].pc.Start? && s.threads[m.t].job.Register?)
    ensures Step(s, m).channels == s.channels
    ensures forall t :: 0 <= t < |s.threads| ==> Step(s, m).threads[t].sent == s.threads[t].sent
  {
  }

  lemma WhoPanics(s: State, m: Move)
    requires Step(s, m).panicked && !s.panicked
    ensures m.Go? && m.t < |s.threads| && s.threads[m.t].pc.Loaded?
    ensures s.threads[m.t].pc.ch < |s.channels| && s.channels[s.threads[m.t].pc.ch].closed
  {
  }

  // --- The other mixes of calls that cannot panic: no closer at all, or a
  //     single caller besides the registrations ---

  ghost predicate NoCloser(s: State, u: Uuid) {
    forall t :: 0 <= t < |s.threads| ==> !(s.threads[t].job.Close? && s.threads[t].u == u)
  }

  ghost predicate AllOpen(s: State, u: Uuid) {
    forall c :: 0 <= c < |s.channels| && s.channels[c].owner == u ==> !s.channels[c].closed
  }

  ghost predicate LoneUser(s: State, u: Uuid) {
    forall t, o :: 0 <= t < o < |s.threads| && s.threads[t].u == u && s.threads[o].u == u ==>
      s.threads[t].job.Register? || s.threads[o].job.Register?
  }

  predicate PastClose(pc: Pc) { pc.Closed? || pc.Dropped? || pc.Leaving? || pc.Finished? }

  ghost predicate ClosedByLone(s: State, u: Uuid) {
    forall c, t :: 0 <= c < |s.channels| && s.channels[c].owner == u && s.channels[c].closed && 0 <= t < |s.threads| ==>
      s.threads[t].u == u && !s.threads[t].job.Register? ==> PastClose(s.threads[t].pc)
  }

  ghost predicate Calm(s: State, u: Uuid) {
    || (OneRegister(s, u) && Once(s, u))
    || (NoCloser(s, u) && AllOpen(s, u))
    || (LoneUser(s, u) && ClosedByLone(s, u))
  }

  lemma AllOpenStep(s: State, m: Move, u: Uuid)
    requires Sane(s) && NoCloser(s, u) && AllOpen(s, u)
    ensures AllOpen(Step(s, m), u)
  {
    hide Step, HoldersOk, EntriesOk;
    assert m.Go? && m.t < |s.threads| ==> ThreadOk(s, m.t);
    forall c | 0 <= c < |Step(s, m).channels| && Step(s, m).channels[c].owner == u
      ensures !Step(s, m).channels[c].closed
    {
      if Step(s, m).channels[c].closed {
        WhoCloses(s, m, c);
      }
    }
  }

  // A step changes no other thread.
  lemma OtherThreadStays(s: State, m: Move, t: nat)
    requires t < |s.threads| && m != Go(t)
    ensures |Step(s, m).threads| == |s.threads| && Step(s, m).threads[t] == s.threads[t]
  {
    hide Full, InSection;
  }

  lemma OwnPastCloseStays(s: State, t: nat)
    requires t < |s.threads| && PastClose(s.threads[t].pc)
    ensures |Step(s, Go(t)).threads| == |s.threads| && PastClose(Step(s, Go(t)).threads[t].pc)
  {
    hide StoreChannel, StoreLock, FindLock, TakeLock, FindChannel, Send, CloseChannel;
  }

  lemma PastCloseStays(s: State, m: Move, t: nat)
    requires t < |s.threads|
    ensures t < |Step(s, m).threads| && (PastClose(s.threads[t].pc) ==> PastClose(Step(s, m).threads[t].pc))
  {
    StepSameCalls(s, m);
    hide Step;
    if m != Go(t) { OtherThreadStays(s, m, t); }
    else if PastClose(s.threads[t].pc) { OwnPastCloseStays(s, t); }
  }

  lemma ClosedByLoneStep(s: State, m: Move, u: Uuid)
    requires Sane(s) && LoneUser(s, u) && ClosedByLone(s, u)
    ensures ClosedByLone(Step(s, m), u)
  {
    hide Step, HoldersOk, EntriesOk;
    StepSameCalls(s, m);
    var s' := Step(s, m);
    forall c, t | 0 <= c < |s'.channels| && s'.channels[c].owner == u && s'.channels[c].closed
                  && 0 <= t < |s'.threads| && s'.threads[t].u == u && !s'.threads[t].job.Register?
      ensures PastClose(s'.threads[t].pc)
    {
      WhoCloses(s, m, c);
      PastCloseStays(s, m, t);
      if !s.channels[c].closed { assert ThreadOk(s, m.t); }
    }
  }

  lemma SameMix(s: State, s': State, u: Uuid)
    requires SameCalls(s, s')
    ensures OneRegister(s, u) ==> OneRegister(s', u)
    ensures NoCloser(s, u) ==> NoCloser(s', u)
    ensures LoneUser(s, u) ==> LoneUser(s', u)
  {
  }

  ghost predicate AllCalm(s: State) { forall u :: Calm(s, u) }

  lemma StepCalm(s: State, m: Move, u: Uuid)
    requires Sane(s) && Calm(s, u)
    ensures Calm(Step(s, m), u)
  {
    hide Sane, Once, AllOpen, ClosedByLone, OneRegister, NoCloser, LoneUser, Step;
    StepSameCalls(s, m);
    SameMix(s, Step(s, m), u);
    if OneRegister(s, u) && Once(s, u) { StepOnce(s, m, u); }
    else if NoCloser(s, u) && AllOpen(s, u) { AllOpenStep(s, m, u); }
    else { ClosedByLoneStep(s, m, u); }
  }

  // What a thread has looked up is not closed, so its send or close is sound.
  lemma CalmStepsDoNotPanic(s: State, m: Move)
    requires Sane(s) && !s.panicked && AllCalm(s)
    ensures !Step(s, m).panicked
  {
    hide Step, HoldersOk, EntriesOk;
    assert m.Go? && m.t < |s.threads| ==> ThreadOk(s, m.t) && Calm(s, s.threads[m.t].u);
    if Step(s, m).panicked { WhoPanics(s, m); }
  }

  // --- Every run ---

  // The calls that can panic under some schedule: two registrations of one
  // UUID, a closer, and another closer or writer.
  predicate Risky(calls: seq<Call>, r: nat, r': nat, a: nat, b: nat) {
    && r < |calls| && r' < |calls| && a < |calls| && b < |calls| && r != r' && a != b
    && calls[r].u == calls[r'].u == calls[a].u == calls[b].u
    && calls[r].job.Register? && calls[r'].job.Register? && calls[a].job.Close? && !calls[b].job.Register?
  }

  lemma NotCalmIsRisky(calls: seq<Call>, u: Uuid) returns (r: nat, r': nat, a: nat, b: nat)
    requires !Calm(Begin(calls), u)
    ensures Risky(calls, r, r', a, b)
  {
    var s := Begin(calls);
    assert !OneRegister(s, u) && !NoCloser(s, u) && !LoneUser(s, u);
    r, r' :| 0 <= r < r' < |calls| && calls[r].job.Register? && calls[r].u == u && calls[r'].job.Register? &&
      calls[r'].u == u;
    a :| 0 <= a < |calls| && calls[a].job.Close? && calls[a].u == u;
    var t, o :| 0 <= t < o < |calls| && calls[t].u == u && calls[o].u == u && !calls[t].job.Register? &&
      !calls[o].job.Register?;
    b := if t == a then o else t;
  }

  lemma {:induction false} RunsAreSane(calls: seq<Call>, schedule: seq<Move>)
    ensures Sane(Exec(Begin(calls), schedule)) && SameCalls(Begin(calls), Exec(Begin(calls), schedule))
    decreases |schedule|
  {
    hide Sane, Step, Begin;
    if schedule == [] {
      BeginSane(calls);
    } else {
      RunsAreSane(calls, schedule[..|schedule|-1]);
      var s := Exec(Begin(calls), schedule[..|schedule|-1]);
      StepSane(s, schedule[|schedule|-1]);
      StepSameCalls(s, schedule[|schedule|-1]);
    }
  }

  lemma {:induction false} RunsAreCalm(calls: seq<Call>, schedule: seq<Move>)
    requires forall r, r', a, b :: !Risky(calls, r, r', a, b)
    ensures !Exec(Begin(calls), schedule).panicked && AllCalm(Exec(Begin(calls), schedule))
    decreases |schedule|
  {
    hide Calm, Sane, Step, Risky;
    if schedule == [] {
      var s := Begin(calls);
      if !AllCalm(s) {
        var u :| !Calm(s, u);
        var r, r', a, b := NotCalmIsRisky(calls, u);
      }
    } else {
      var s := Exec(Begin(calls), schedule[..|schedule|-1]);
      RunsAreSane(calls, schedule[..|schedule|-1]);
      RunsAreCalm(calls, schedule[..|schedule|-1]);
      CalmStepsDoNotPanic(s, schedule[|schedule|-1]);
      var s' := Step(s, schedule[|schedule|-1]);
      forall u ensures Calm(s', u) { StepCalm(s, schedule[|schedule|-1], u); }
    }
  }

  // --- The schedule that panics ---

  // The four risky threads and everything they share.
  ghost predicate Scene(s: State, u: Uuid, who: (nat, nat, nat, nat), pcs: (Pc, Pc, Pc, Pc), buffers: map<Uuid, nat>,
                        locks: map<Uuid, nat>, channels: seq<Channel>, mutexes: seq<Mutex>)
  {
    && s.buffers == buffers && s.locks == locks && s.channels == channels && s.mutexes == mutexes && !s.panicked
    && who.0 < |s.threads| && who.1 < |s.threads| && who.2 < |s.threads| && who.3 < |s.threads|
    && who.0 != who.1 && who.2 != who.3
    && s.threads[who.0] == Thread(Register, u, pcs.0, false) && s.threads[who.1] == Thread(Register, u, pcs.1, false)
    && s.threads[who.2] == Thread(Close, u, pcs.2, false)
    && !s.threads[who.3].job.Register? && s.threads[who.3].u == u && s.threads[who.3].pc == pcs.3 &&
      !s.threads[who.3].sent
  }

  function Chan(u: Uuid): Channel { Channel(u, [], 0, false) }

  // The first registration completes and the closer finds its lock.
  lemma FirstRegistration(s: State, u: Uuid, who: (nat, nat, nat, nat)) returns (s': State)
    requires Scene(s, u, who, (Start, Start, Start, Start), map[], map[], [], [])
    ensures s' == Step(Step(Step(s, Go(who.0)), Go(who.0)), Go(who.2))
    ensures Scene(s', u, who, (Finished, Start, Waiting(0), Start), map[u := 0], map[u := 0], [Chan(u)],
      [Mutex(u, None)])
  {
    var s1 := Step(s, Go(who.0));
    assert Scene(s1, u, who, (Buffered, Start, Start, Start), map[u := 0], map[], [Chan(u)], []);
    var s2 := Step(s1, Go(who.0));
    assert Scene(s2, u, who, (Finished, Start, Start, Start), map[u := 0], map[u := 0], [Chan(u)], [Mutex(u, None)]);
    s' := Step(s2, Go(who.2));
  }

  // The second registration replaces both entries; the fourth thread finds the new lock.
  lemma SecondRegistration(s: State, u: Uuid, who: (nat, nat, nat, nat)) returns (s': State)
    requires Scene(s, u, who, (Finished, Start, Waiting(0), Start), map[u := 0], map[u := 0], [Chan(u)],
      [Mutex(u, None)])
    ensures s' == Step(Step(Step(s, Go(who.1)), Go(who.1)), Go(who.3))
    ensures Scene(s', u, who, (Finished, Finished, Waiting(0), Waiting(1)), map[u := 1], map[u := 1],
                  [Chan(u), Chan(u)], [Mutex(u, None), Mutex(u, None)])
  {
    var s1 := Step(s, Go(who.1));
    assert Scene(s1, u, who, (Finished, Buffered, Waiting(0), Start), map[u := 1], map[u := 0], [Chan(u), Chan(u)],
      [Mutex(u, None)]);
    var s2 := Step(s1, Go(who.1));
    assert Scene(s2, u, who, (Finished, Finished, Waiting(0), Start), map[u := 1], map[u := 1],
                 [Chan(u), Chan(u)], [Mutex(u, None), Mutex(u, None)]);
    s' := Step(s2, Go(who.3));
  }

  // Each holds another lock, so both are let at the one registered channel.
  lemma TwoSections(s: State, u: Uuid, who: (nat, nat, nat, nat)) returns (s': State)
    requires Scene(s, u, who, (Finished, Finished, Waiting(0), Waiting(1)), map[u := 1], map[u := 1],
                   [Chan(u), Chan(u)], [Mutex(u, None), Mutex(u, None)])
    ensures s' == Exec(s, [Go(who.2), Go(who.2), Go(who.3), Go(who.3), Go(who.2), Go(who.3)])
    ensures s'.panicked
  {
    var held, both := [Mutex(u, Some(who.2)), Mutex(u, None)], [Mutex(u, Some(who.2)), Mutex(u, Some(who.3))];
    var s1 := Step(s, Go(who.2));
    assert Scene(s1, u, who, (Finished, Finished, Entered(0), Waiting(1)), map[u := 1], map[u := 1],
      [Chan(u), Chan(u)], held);
    var s2 := Step(s1, Go(who.2));
    assert Scene(s2, u, who, (Finished, Finished, Loaded(0, 1), Waiting(1)), map[u := 1], map[u := 1],
      [Chan(u), Chan(u)], held);
    var s3 := Step(s2, Go(who.3));
    assert Scene(s3, u, who, (Finished, Finished, Loaded(0, 1), Entered(1)), map[u := 1], map[u := 1],
      [Chan(u), Chan(u)], both);
    var s4 := Step(s3, Go(who.3));
    assert Scene(s4, u, who, (Finished, Finished, Loaded(0, 1), Loaded(1, 1)), map[u := 1], map[u := 1],
      [Chan(u), Chan(u)], both);
    var s5 := Step(s4, Go(who.2));
    s' := Step(s5, Go(who.3));
    hide Step, Scene;
    SixSteps(s, Go(who.2), Go(who.2), Go(who.3), Go(who.3), Go(who.2), Go(who.3));
  }

  lemma SixSteps(s: State, a: Move, b: Move, c: Move, d: Move, e: Move, f: Move)
    ensures Exec(s, [a, b, c, d, e, f]) == Step(Step(Step(Step(Step(Step(s, a), b), c), d), e), f)
  {
    hide Step;
    assert [a, b, c, d, e, f][..5] == [a, b, c, d, e] && [a, b, c, d, e][..4] == [a, b, c, d];
    assert [a, b, c, d][..3] == [a, b, c] && [a, b, c][..2] == [a, b] && [a, b][..1] == [a] && [a][..0] == [];
    assert Exec(s, [a]) == Step(s, a);
    assert Exec(s, [a, b]) == Step(Step(s, a), b);
    assert Exec(s, [a, b, c]) == Step(Step(Step(s, a), b), c);
    assert Exec(s, [a, b, c, d]) == Step(Step(Step(Step(s, a), b), c), d);
    assert Exec(s, [a, b, c, d, e]) == Step(Step(Step(Step(Step(s, a), b), c), d), e);
  }

  lemma {:induction false} ExecConcat(s: State, a: seq<Move>, b: seq<Move>)
    ensures Exec(s, a + b) == Exec(Exec(s, a), b)
    decreases |b|
  {
    hide Step;
    if b == [] {
      assert a + b == a;
    } else {
      assert (a + b)[..|a + b|-1] == a + b[..|b|-1];
      ExecConcat(s, a, b[..|b|-1]);
    }
  }

  lemma RiskyPanics(calls: seq<Call>, r: nat, r': nat, a: nat, b: nat) returns (schedule: seq<Move>)
    requires Risky(calls, r, r', a, b)
    ensures Exec(Begin(calls), schedule).panicked
  {
    var s, u, who := Begin(calls), calls[r].u, (r, r', a, b);
    assert Scene(s, u, who, (Start, Start, Start, Start), map[], map[], [], []);
    hide Scene, Exec, Step;
    var s0 := FirstRegistration(s, u, who);
    var s1 := SecondRegistration(s0, u, who);
    SixSteps(s, Go(r), Go(r), Go(a), Go(r'), Go(r'), Go(b));
    var s2 := TwoSections(s1, u, who);
    var first := [Go(r), Go(r), Go(a), Go(r'), Go(r'), Go(b)];
    var second := [Go(a), Go(a), Go(b), Go(b), Go(a), Go(b)];
    ExecConcat(s, first, second);
    schedule := first + second;
  }

  // A set of calls, whatever their number and UUIDs, is safe under every
  // schedule exactly when no UUID has two registrations, a closer and one more
  // closer or writer. So one registration per UUID is enough.
  lemma SafeIffNotRisky(calls: seq<Call>)
    ensures (forall schedule :: !Exec(Begin(calls), schedule).panicked) <==>
      (forall r, r', a, b :: !Risky(calls, r, r', a, b))
  {
    hide Exec, Risky, Begin;
    if forall r, r', a, b :: !Risky(calls, r, r', a, b) {
      forall schedule ensures !Exec(Begin(calls), schedule).panicked { RunsAreCalm(calls, schedule); }
    } else {
      var r, r', a, b :| Risky(calls, r, r', a, b);
      var schedule := RiskyPanics(calls, r, r', a, b);
    }
  }

  lemma OneRegistrationIsSafe(calls: seq<Call>, schedule: seq<Move>)
    requires forall t, o :: 0 <= t < o < |calls| && calls[t].job.Register? && calls[o].job.Register? ==>
      calls[t].u != calls[o].u
    ensures !Exec(Begin(calls), schedule).panicked
  {
    forall r, r', a, b ensures !Risky(calls, r, r', a, b) {}
    hide Exec, Risky, Begin;
    SafeIffNotRisky(calls);
  }

  // --- Messages: each send that happened is in one place, and nothing else is ---

  predicate Logged(s: State, c: int, i: int, t: nat) {
    0 <= c < |s.channels| && 0 <= i < |s.channels[c].log| && s.channels[c].log[i] == t
  }

  ghost predicate InSomeLog(s: State, t: nat) { exists c, i :: Logged(s, c, i, t) }

  // A channel holds messages of its own UUID only, at most 200 unread; a thread
  // that sent is in exactly one log, once; nobody else is in any.
  ghost predicate LogsOk(s: State) {
    && (forall c :: 0 <= c < |s.channels| ==>
      s.channels[c].taken <= |s.channels[c].log| <= s.channels[c].taken + CAPACITY)
    && (forall c, i, t: nat :: Logged(s, c, i, t) ==>
      t < |s.threads| && s.threads[t].sent && s.threads[t].u == s.channels[c].owner)
    && (forall c, i, d, j, t: nat :: Logged(s, c, i, t) && Logged(s, d, j, t) ==> c == d && i == j)
    && (forall t :: 0 <= t < |s.threads| && s.threads[t].sent ==> InSomeLog(s, t))
  }

  lemma SameLogs(s: State, s': State)
    requires LogsOk(s) && |s'.channels| >= |s.channels|
    requires forall c :: 0 <= c < |s.channels| ==>
      s'.channels[c].log == s.channels[c].log && s'.channels[c].owner == s.channels[c].owner
    requires forall c :: 0 <= c < |s'.channels| ==>
      s'.channels[c].taken <= |s'.channels[c].log| <= s'.channels[c].taken + CAPACITY
    requires forall c :: |s.channels| <= c < |s'.channels| ==> s'.channels[c].log == []
    requires |s'.threads| == |s.threads|
    requires forall t :: 0 <= t < |s.threads| ==>
      s'.threads[t].sent == s.threads[t].sent && s'.threads[t].u == s.threads[t].u
    ensures LogsOk(s')
  {
    assert forall c, i, t: nat :: Logged(s', c, i, t) <==> Logged(s, c, i, t);
    forall t | 0 <= t < |s'.threads| && s'.threads[t].sent ensures InSomeLog(s', t) {
      var c, i :| Logged(s, c, i, t);
      assert Logged(s', c, i, t);
    }
  }

  lemma SendLogs(s: State, t: nat, l: nat, ch: nat)
    requires Sane(s) && LogsOk(s) && t < |s.threads| && s.threads[t].pc == Loaded(l, ch) && !s.threads[t].job.Close? &&
      ch < |s.channels|
    ensures LogsOk(Send(s, t, l, ch))
  {
    assert ThreadOk(s, t);
    var s' := Send(s, t, l, ch);
    var n := |s.channels[ch].log|;
    hide Sane, ThreadOk;
    if !s.channels[ch].closed && !Full(s.channels[ch]) {
      assert forall c, i, o: nat :: Logged(s', c, i, o) <==> Logged(s, c, i, o) || (c == ch && i == n && o == t);
      assert Logged(s', ch, n, t);
      forall o | 0 <= o < |s'.threads| && s'.threads[o].sent ensures InSomeLog(s', o) {
        if o != t {
          var c, i :| Logged(s, c, i, o);
          assert Logged(s', c, i, o);
        }
      }
    } else {
      LogBounds(s);
      SameLogs(s, s');
    }
  }

  lemma StepLogs(s: State, m: Move)
    requires Sane(s) && LogsOk(s)
    ensures LogsOk(Step(s, m))
  {
    StepSameCalls(s, m);
    if m.Go? && m.t < |s.threads| && s.threads[m.t].pc.Loaded? && !s.threads[m.t].job.Close? {
      if PcInRange(s, s.threads[m.t].pc) && !s.panicked { SendLogs(s, m.t, s.threads[m.t].pc.l, s.threads[m.t].pc.ch); }
    } else {
      OtherStepLogs(s, m);
    }
  }

  lemma OtherStepLogs(s: State, m: Move)
    requires LogsOk(s) && SameCalls(s, Step(s, m))
    requires !(m.Go? && m.t < |s.threads| && s.threads[m.t].pc.Loaded? && !s.threads[m.t].job.Close?)
    ensures LogsOk(Step(s, m))
  {
    hide LogsOk, StoreLock, FindLock, TakeLock, FindChannel, DropChannel, DropLock, ReleaseLock;
    var s' := Step(s, m);
    if m.Go? && m.t < |s.threads| && !s.threads[m.t].pc.Loaded? &&
      !(s.threads[m.t].pc.Start? && s.threads[m.t].job.Register?) {
      KeepsChannels(s, m);
    }
    LogBounds(s);
    SameLogs(s, s');
  }

  lemma LogBounds(s: State)
    requires LogsOk(s)
    ensures forall c :: 0 <= c < |s.channels| ==>
      s.channels[c].taken <= |s.channels[c].log| <= s.channels[c].taken + CAPACITY
  {
  }

  // In every run, whatever is registered twice or panics.
  lemma {:induction false} RunsConserveMessages(calls: seq<Call>, schedule: seq<Move>)
    ensures LogsOk(Exec(Begin(calls), schedule))
    decreases |schedule|
  {
    hide Sane, Step;
    if schedule != [] {
      hide LogsOk, Begin;
      RunsAreSane(calls, schedule[..|schedule|-1]);
      RunsConserveMessages(calls, schedule[..|schedule|-1]);
      StepLogs(Exec(Begin(calls), schedule[..|schedule|-1]), schedule[|schedule|-1]);
    }
  }

  // --- When calls do not return ---

  predicate CanMove(s: State, t: nat) { Step(s, Go(t)) != s }

  // A writer that holds its lock while it waits for room in the channel.
  predicate Jammed(s: State, w: nat) {
    && w < |s.threads| && s.threads[w].pc.Loaded? && s.threads[w].job.Write?
    && PcInRange(s, s.threads[w].pc) && !s.channels[s.threads[w].pc.ch].closed && Full(s.channels[s.threads[w].pc.ch])
  }

  // The lock this thread has found is taken.
  predicate BehindLock(s: State, t: nat) {
    && t < |s.threads| && s.threads[t].pc.Waiting? && PcInRange(s, s.threads[t].pc)
    && s.mutexes[s.threads[t].pc.l].holder.Some?
  }

  // Exactly two kinds of thread cannot move: jammed writers, and threads whose
  // lock is taken.
  lemma WhoWaits(s: State, t: nat)
    requires Sane(s) && !s.panicked && t < |s.threads| && !s.threads[t].pc.Finished?
    ensures !CanMove(s, t) <==> Jammed(s, t) || BehindLock(s, t)
  {
    assert ThreadOk(s, t);
    hide HoldersOk, EntriesOk;
    WhoMoves(s, t);
  }

  lemma WhoMoves(s: State, t: nat)
    requires !s.panicked && t < |s.threads| && !s.threads[t].pc.Finished? && PcInRange(s, s.threads[t].pc)
    ensures Step(s, Go(t)).panicked || Step(s, Go(t)) == s || Step(s, Go(t)).threads[t].pc != s.threads[t].pc
  {
  }

  // If no thread of a UUID can move and one has not finished, then one of them
  // is a writer before a full channel: nothing else ever deadlocks.
  lemma StuckBehindFullChannel(s: State, u: Uuid, t: nat) returns (w: nat)
    requires Sane(s) && !s.panicked && t < |s.threads| && s.threads[t].u == u && !s.threads[t].pc.Finished?
    requires forall o :: 0 <= o < |s.threads| && s.threads[o].u == u ==> !CanMove(s, o)
    ensures Jammed(s, w) && s.threads[w].u == u
  {
    WhoWaits(s, t);
    assert ThreadOk(s, t);
    w := t;
    if !Jammed(s, t) {
      w := s.mutexes[s.threads[t].pc.l].holder.value;
      assert ThreadOk(s, w);
      hide CanMove, Jammed;
      WhoWaits(s, w);
    }
  }

  lemma LeavesChannel(s: State, m: Move, c: nat)
    requires c < |s.channels| && m != Receive(c)
    requires !(m.Go? && m.t < |s.threads| && s.threads[m.t].pc.Loaded? && s.threads[m.t].pc.ch == c)
    ensures c < |Step(s, m).channels| && Step(s, m).channels[c] == s.channels[c]
  {
    hide StoreLock, FindLock, TakeLock, FindChannel, DropChannel, DropLock, ReleaseLock;
    if m.Go? && m.t < |s.threads| && !s.threads[m.t].pc.Loaded? &&
      !(s.threads[m.t].pc.Start? && s.threads[m.t].job.Register?) {
      KeepsChannels(s, m);
    }
  }

  lemma StuckThread(s: State, t: nat)
    requires t < |s.threads| && (s.panicked || Jammed(s, t) || BehindLock(s, t))
    ensures Step(s, Go(t)) == s
  {
    hide StoreChannel, StoreLock, FindLock, FindChannel, CloseChannel, DropChannel, DropLock, ReleaseLock;
  }

  lemma TablesGrow(s: State, m: Move)
    ensures |Step(s, m).mutexes| >= |s.mutexes| && |Step(s, m).channels| >= |s.channels|
  {
    hide Full;
  }

  lemma LeavesThread(s: State, m: Move, t: nat)
    requires t < |s.threads|
    requires m == Go(t) ==> s.panicked || Jammed(s, t) || BehindLock(s, t)
    ensures t < |Step(s, m).threads| && Step(s, m).threads[t] == s.threads[t]
    ensures |Step(s, m).mutexes| >= |s.mutexes| && |Step(s, m).channels| >= |s.channels|
    ensures m == Go(t) ==> Step(s, m) == s
  {
    hide Step;
    TablesGrow(s, m);
    if m == Go(t) { StuckThread(s, t); } else { OtherThreadStays(s, m, t); }
  }

  // Unless the reader takes a message, a jammed writer stays and so does every
  // caller that waits for its lock: in particular the closer.
  lemma JamStays(s: State, w: nat, a: nat, m: Move)
    requires Sane(s) && Jammed(s, w) && OneRegister(s, s.threads[w].u) && Once(s, s.threads[w].u)
    requires a < |s.threads| && s.threads[a].pc == Waiting(s.threads[w].pc.l)
    requires m != Receive(s.threads[w].pc.ch)
    ensures var s' := Step(s, m);
      Jammed(s', w) && a < |s'.threads| && s'.threads[w] == s.threads[w] && s'.threads[a] == s.threads[a]
  {
    assert ThreadOk(s, w) && (m.Go? && m.t < |s.threads| ==> ThreadOk(s, m.t));
    if m.Go? && m.t < |s.threads| && InSection(s.threads[m.t].pc) && s.threads[m.t].u == s.threads[w].u {
      MutualExclusion(s, s.threads[w].u, m.t, w);
    }
    hide Step, Sane, Once, OneRegister;
    LeavesThread(s, m, w);
    LeavesThread(s, m, a);
    if m != Go(w) { LeavesChannel(s, m, s.threads[w].pc.ch); }
  }

  lemma {:induction false} JamIsForever(s: State, w: nat, a: nat, schedule: seq<Move>)
    requires Sane(s) && Jammed(s, w) && OneRegister(s, s.threads[w].u) && Once(s, s.threads[w].u)
    requires a < |s.threads| && s.threads[a].pc == Waiting(s.threads[w].pc.l)
    requires Receive(s.threads[w].pc.ch) !in schedule
    ensures var s' := Exec(s, schedule);
      && Sane(s') && OneRegister(s', s.threads[w].u) && Once(s', s.threads[w].u)
      && Jammed(s', w) && s'.threads[w] == s.threads[w] && a < |s'.threads| && s'.threads[a] == s.threads[a]
    decreases |schedule|
  {
    assert w < |s.threads|;
    hide Sane, Jammed, OneRegister, Once, Step;
    if schedule != [] {
      var front, m := schedule[..|schedule|-1], schedule[|schedule|-1];
      JamIsForever(s, w, a, front);
      var s1 := Exec(s, front);
      assert m in schedule;
      JamStays(s1, w, a, m);
      StepSane(s1, m);
      StepOnce(s1, m, s.threads[w].u);
      StepSameCalls(s1, m);
      SameMix(s1, Step(s1, m), s.threads[w].u);
    }
  }
}
