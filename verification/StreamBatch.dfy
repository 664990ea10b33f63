// Streaming a command's output back: a producer splits the output into lines and
// puts them into a bounded channel, the main loop gathers lines and sends them
// as one package when a hundred have come together or a timer ticks.
module StreamBatch {
  const MAX_LINES := 100
  const CAPACITY := 200

  // --- Lines ---

  // The text up to and including its first newline.
  function FirstLine(data: string): (line: string)
    ensures line <= data
    ensures data != "" ==> line != ""
    ensures '\n' in data ==> line[|line|-1] == '\n'
    ensures '\n' !in line[..if line == "" then 0 else |line| - 1]
    ensures '\n' !in data ==> line == data
  {
    if data == "" then ""
    else if data[0] == '\n' then "\n"
    else
      var rest := FirstLine(data[1..]);
      assert data == [data[0]] + data[1..];
      [data[0]] + rest
  }

  // What successive reads up to a newline return; the last line may lack one.
  function Lines(data: string): seq<string>
    decreases |data|
  {
    if data == "" then [] else [FirstLine(data)] + Lines(data[|FirstLine(data)|..])
  }

  function Concat(parts: seq<string>): string {
    if parts == [] then "" else parts[0] + Concat(parts[1..])
  }

  lemma {:induction false} ConcatAppend(a: seq<string>, b: seq<string>)
    ensures Concat(a + b) == Concat(a) + Concat(b)
    decreases |a|
  {
    if a == [] {
      assert a + b == b;
    } else {
      assert (a + b)[1..] == a[1..] + b;
      ConcatAppend(a[1..], b);
    }
  }

  lemma LinesSplit(data: string)
    requires data != ""
    ensures FirstLine(data) != "" && Lines(data) == [FirstLine(data)] + Lines(data[|FirstLine(data)|..])
    ensures data == FirstLine(data) + data[|FirstLine(data)|..]
  {
    hide FirstLine;
    PrefixSplit(FirstLine(data), data);
  }

  lemma PrefixSplit(a: string, b: string)
    requires a <= b
    ensures b == a + b[|a|..]
  {
  }

  lemma ConcatCons(head: string, tail: seq<string>)
    ensures Concat([head] + tail) == head + Concat(tail)
  {
    assert ([head] + tail)[1..] == tail;
  }

  // Cutting into lines loses nothing, and no line is empty: an empty string
  // received from the channel really means that it is closed.
  lemma {:induction false} LinesConcat(data: string)
    ensures Concat(Lines(data)) == data
    ensures forall line :: line in Lines(data) ==> line != ""
    decreases |data|
  {
    if data != "" {
      LinesSplit(data);
      hide *;
      LinesConcat(data[|FirstLine(data)|..]);
      ConcatCons(FirstLine(data), Lines(data[|FirstLine(data)|..]));
    }
  }

  function Flatten(batches: seq<seq<string>>): seq<string> {
    if batches == [] then [] else Flatten(batches[..|batches|-1]) + batches[|batches|-1]
  }

  // --- One run of the loop ---

  // What happens next: the producer puts a line or closes the channel, the timer
  // expires, or the loop receives from the timer or from the channel. `fails`
  // says whether a package sent on that occasion is refused.
  datatype Event = Produce | Expire | OnTick(fails: bool) | OnLine(fails: bool)

  datatype Status = Running | Complete | Broken

  // Everything the goroutines share: input not read yet, the channel, the lines
  // gathered, the packages sent, and the timer.
  datatype Stream = Stream(todo: string, channel: seq<string>, closed: bool, lines: seq<string>,
                           sent: seq<seq<string>>, armed: bool, tick: bool, status: Status)

  function Begin(data: string): Stream { Stream(data, [], false, [], [], true, false, Running) }

  // The closure send: nothing to do without lines; a refused package ends the loop.
  function Flush(s: Stream, fails: bool): Stream {
    if s.lines == [] then s
    else if fails then s.(status := Broken)
    else s.(sent := s.sent + [s.lines], lines := [])
  }

  predicate Enabled(s: Stream, e: Event) {
    match e
    case Produce => !s.closed && |s.channel| < CAPACITY
    case Expire => s.armed
    case OnTick(_) => s.status == Running && s.tick
    case OnLine(_) => s.status == Running && (s.channel != [] || s.closed)
  }

  function Occur(s: Stream, e: Event): Stream
    requires Enabled(s, e)
  {
    match e
    case Produce =>
      if s.todo == "" then s.(closed := true)
      else s.(channel := s.channel + [FirstLine(s.todo)], todo := s.todo[|FirstLine(s.todo)|..])
    case Expire => s.(armed := false, tick := true)
    case OnTick(fails) => Flush(s.(tick := false), fails)
    case OnLine(fails) =>
      if s.channel == [] then
        var end := Flush(s, fails);
        if end.status == Broken then end else end.(status := Complete)
      else
        var more := s.(lines := s.lines + [s.channel[0]], channel := s.channel[1..]);
        var after := if |more.lines| >= MAX_LINES then Flush(more, fails) else more;
        if after.status == Running && |after.lines| == 1 then after.(armed := true) else after
  }

  // Events that cannot happen yet are skipped, so any list of events is a schedule.
  function Run(s: Stream, events: seq<Event>): Stream
    decreases |events|
  {
    if events == [] then s
    else
      var before := Run(s, events[..|events|-1]);
      if Enabled(before, events[|events|-1]) then Occur(before, events[|events|-1]) else before
  }

  // --- What every run keeps ---

  predicate Sized(s: Stream) {
    && (forall k :: 0 <= k < |s.sent| ==> 1 <= |s.sent[k]| <= MAX_LINES)
    && |s.channel| <= CAPACITY
    && (s.status == Running ==> |s.lines| < MAX_LINES)
  }

  // Nothing is lost, repeated or reordered on the way.
  predicate Conserved(s: Stream, data: string) {
    && Flatten(s.sent) + s.lines + s.channel + Lines(s.todo) == Lines(data)
    && (s.closed ==> s.todo == "")
  }

  // Lines that wait will be sent: a timer is running or has expired.
  predicate Timed(s: Stream) {
    && (s.status == Running && s.lines != [] ==> s.armed || s.tick)
    && (s.status == Complete ==> s.lines == [] && s.channel == [] && s.closed)
    && (s.status == Broken ==> s.lines != [])
  }

  predicate Ok(s: Stream, data: string) { Sized(s) && Conserved(s, data) && Timed(s) }

  lemma FlattenSnoc(batches: seq<seq<string>>, last: seq<string>)
    ensures Flatten(batches + [last]) == Flatten(batches) + last
  {
    assert (batches + [last])[..|batches|] == batches;
  }

  lemma FlushKeeps(s: Stream, data: string, fails: bool)
    requires Conserved(s, data) && |s.lines| <= MAX_LINES && |s.channel| <= CAPACITY
    requires forall k :: 0 <= k < |s.sent| ==> 1 <= |s.sent[k]| <= MAX_LINES
    requires s.status == Running
    ensures Conserved(Flush(s, fails), data) && Sized(Flush(s, fails))
  {
    if s.lines != [] && !fails { FlattenSnoc(s.sent, s.lines); }
    hide Flatten, Lines;
    var after := Flush(s, fails);
    assert Flatten(after.sent) + after.lines == Flatten(s.sent) + s.lines;
  }

  lemma Regroup(x: seq<string>, y: seq<string>, line: string, rest: seq<string>)
    ensures x + y + ([line] + rest) == x + (y + [line]) + rest
  {
  }

  lemma ProduceKeeps(s: Stream, data: string)
    requires Ok(s, data) && Enabled(s, Produce)
    ensures Ok(Occur(s, Produce), data)
  {
    if s.todo != "" {
      LinesSplit(s.todo);
      hide Flatten, Lines, FirstLine;
      Regroup(Flatten(s.sent) + s.lines, s.channel, FirstLine(s.todo), Lines(s.todo[|FirstLine(s.todo)|..]));
    }
  }

  // The state once the next line has been appended.
  function Gathered(s: Stream): Stream
    requires s.channel != []
  {
    s.(lines := s.lines + [s.channel[0]], channel := s.channel[1..])
  }

  lemma GatherKeeps(s: Stream, data: string)
    requires Conserved(s, data) && s.channel != []
    ensures Conserved(Gathered(s), data)
  {
    hide Flatten, Lines;
    assert s.lines + s.channel == (s.lines + [s.channel[0]]) + s.channel[1..];
  }

  lemma OnLineKeeps(s: Stream, data: string, fails: bool)
    requires Ok(s, data) && Enabled(s, OnLine(fails))
    ensures Ok(Occur(s, OnLine(fails)), data)
  {
    if s.channel == [] {
      FlushKeeps(s, data, fails);
      hide Conserved;
    } else {
      GatherKeeps(s, data);
      FlushKeeps(Gathered(s), data, fails);
      hide Conserved;
      ConservedIgnoresTimer(if |Gathered(s).lines| >= MAX_LINES then Flush(Gathered(s), fails) else Gathered(s), data);
    }
  }

  lemma ConservedIgnoresTimer(s: Stream, data: string)
    requires Conserved(s, data)
    ensures Conserved(s.(armed := true), data)
  {
    hide Flatten, Lines;
  }

  lemma OccurKeeps(s: Stream, data: string, e: Event)
    requires Ok(s, data) && Enabled(s, e)
    ensures Ok(Occur(s, e), data)
  {
    hide Flatten, Lines;
    match e
    case Produce => ProduceKeeps(s, data);
    case Expire =>
    case OnTick(fails) => FlushKeeps(s.(tick := false), data, fails);
    case OnLine(fails) => OnLineKeeps(s, data, fails);
  }

  lemma {:induction false} RunKeeps(data: string, events: seq<Event>)
    ensures Ok(Run(Begin(data), events), data)
    decreases |events|
  {
    if events != [] {
      hide Ok, Occur, Enabled;
      RunKeeps(data, events[..|events|-1]);
      var before := Run(Begin(data), events[..|events|-1]);
      if Enabled(before, events[|events|-1]) { OccurKeeps(before, data, events[|events|-1]); }
    }
  }

  // --- What is sent ---

  // The data of the packages, as sent.
  function Packages(sent: seq<seq<string>>): seq<string> {
    if sent == [] then [] else Packages(sent[..|sent|-1]) + [Concat(sent[|sent|-1])]
  }

  lemma {:induction false} PackagesConcat(sent: seq<seq<string>>)
    ensures Concat(Packages(sent)) == Concat(Flatten(sent)) && |Packages(sent)| == |sent|
    decreases |sent|
  {
    if sent != [] {
      var rest, last := sent[..|sent|-1], sent[|sent|-1];
      PackagesConcat(rest);
      ConcatAppend(Packages(rest), [Concat(last)]);
      ConcatAppend(Flatten(rest), last);
      assert Concat([Concat(last)]) == Concat(last);
    }
  }

  lemma PrefixOfWhole(sent: seq<string>, a: seq<string>, b: seq<string>, c: seq<string>, whole: seq<string>)
    requires sent + a + b + c == whole
    ensures sent <= whole && |sent| + |a| + |b| + |c| == |whole|
  {
    assert sent + a + b + c == sent + (a + b + c);
  }

  lemma UnsentRest(data: string, s: Stream)
    requires Ok(s, data)
    ensures Flatten(s.sent) <= Lines(data)
    ensures s.status == Complete ==> Flatten(s.sent) == Lines(data)
    ensures s.status == Broken ==> |Flatten(s.sent)| < |Lines(data)|
  {
    assert Lines("") == [];
    assert s.status == Complete ==> s.lines == [] && s.channel == [] && s.todo == "";
    assert s.status == Broken ==> s.lines != [];
    assert Flatten(s.sent) + s.lines + s.channel + Lines(s.todo) == Lines(data);
    hide *;
    PrefixOfWhole(Flatten(s.sent), s.lines, s.channel, Lines(s.todo), Lines(data));
  }

  lemma NoEmptyLine(parts: seq<string>)
    requires forall part :: part in parts ==> part != ""
    ensures Concat(parts) == "" <==> parts == []
  {
    if parts != [] { assert parts[0] in parts; }
  }

  // Sending only some of the lines sends only some of the text.
  lemma LinesPrefix(data: string, some: seq<string>)
    requires some <= Lines(data)
    ensures Concat(some) <= data
    ensures Concat(some) == data <==> some == Lines(data)
  {
    LinesConcat(data);
    hide Lines;
    var rest := Lines(data)[|some|..];
    assert Lines(data) == some + rest;
    forall part | part in rest ensures part != "" { assert part in Lines(data); }
    ConcatAppend(some, rest);
    NoEmptyLine(rest);
  }

  // For every output and every schedule: packages hold 1 to 100 lines, their
  // text is the beginning of the output, all of it once the loop has completed,
  // and a refused package leaves some of it unsent.
  lemma SentIsPrefix(data: string, events: seq<Event>)
    ensures var s := Run(Begin(data), events);
      && (forall k :: 0 <= k < |s.sent| ==> 1 <= |s.sent[k]| <= MAX_LINES)
      && Flatten(s.sent) <= Lines(data)
      && Concat(Packages(s.sent)) <= data
      && (s.status == Complete ==> Concat(Packages(s.sent)) == data)
      && (s.status == Broken ==> Concat(Packages(s.sent)) != data)
  {
    hide Flatten, Packages, Lines, Run;
    var s := Run(Begin(data), events);
    RunKeeps(data, events);
    hide Conserved, Timed;
    UnsentRest(data, s);
    PackagesConcat(s.sent);
    LinesPrefix(data, Flatten(s.sent));
  }

  // --- When a package is sent ---

  lemma RunOneMore(data: string, events: seq<Event>, e: Event)
    requires Enabled(Run(Begin(data), events), e)
    ensures Run(Begin(data), events + [e]) == Occur(Run(Begin(data), events), e)
  {
    assert (events + [e])[..|events|] == events;
    hide Occur, Enabled, Begin;
  }

  // In every run: once the loop has handled an expired timer and the package was
  // taken, no line is left gathered and the packages hold every line received so
  // far; a refused package with lines in it breaks the loop and is not sent.
  lemma TickSends(data: string, events: seq<Event>, fails: bool)
    requires Run(Begin(data), events).status == Running && Run(Begin(data), events).tick
    ensures var (s, s') := (Run(Begin(data), events), Run(Begin(data), events + [OnTick(fails)]));
      && !s'.tick && s'.channel == s.channel && s'.todo == s.todo
      && if fails && s.lines != [] then s'.status == Broken && s'.sent == s.sent && s'.lines == s.lines
         else
           && s'.status == Running && s'.lines == [] && s'.sent == s.sent + (if s.lines == [] then [] else [s.lines])
           && Flatten(s'.sent) + s'.channel + Lines(s'.todo) == Lines(data)
  {
    var s := Run(Begin(data), events);
    RunOneMore(data, events, OnTick(fails));
    RunKeeps(data, events + [OnTick(fails)]);
    assert s.sent + [] == s.sent;
    hide Flatten, Lines, Run;
    var s' := Occur(s, OnTick(fails));
    assert Flatten(s'.sent) + [] == Flatten(s'.sent);
  }

  // A line received is gathered; the first one starts the timer and the hundredth
  // sends all hundred as one package.
  lemma LineGathered(data: string, events: seq<Event>, fails: bool)
    requires Run(Begin(data), events).status == Running && Run(Begin(data), events).channel != []
    ensures var (s, s') := (Run(Begin(data), events), Run(Begin(data), events + [OnLine(fails)]));
      && |s.lines| <= 99 && s'.channel == s.channel[1..] && s'.todo == s.todo && s'.tick == s.tick
      && (s'.armed <==> s.armed || s.lines == [])
      && if |s.lines| < 99 then s'.status == Running && s'.lines == s.lines + [s.channel[0]] && s'.sent == s.sent
         else if fails then s'.status == Broken && s'.lines == s.lines + [s.channel[0]] && s'.sent == s.sent
         else s'.status == Running && s'.lines == [] && s'.sent == s.sent + [s.lines + [s.channel[0]]]
  {
    RunOneMore(data, events, OnLine(fails));
    RunKeeps(data, events);
    hide Flatten, Lines, Run, Conserved;
  }

  // At the end of the output the rest is sent, and only then is the loop complete.
  lemma EndSends(data: string, events: seq<Event>, fails: bool)
    requires var s := Run(Begin(data), events); s.status == Running && s.channel == [] && s.closed
    ensures var (s, s') := (Run(Begin(data), events), Run(Begin(data), events + [OnLine(fails)]));
      if fails && s.lines != [] then s'.status == Broken && s'.sent == s.sent
      else s'.status == Complete && s'.lines == [] && s'.sent == s.sent + (if s.lines == [] then [] else [s.lines])
  {
    RunOneMore(data, events, OnLine(fails));
    assert Run(Begin(data), events).sent + [] == Run(Begin(data), events).sent;
    hide Run;
  }

  predicate AllFull(sent: seq<seq<string>>) { forall k :: 0 <= k < |sent| ==> |sent[k]| == 100 }

  // Without a tick every package holds exactly a hundred lines, except the last
  // one of a complete response.
  lemma {:induction false} FullUnlessTicked(data: string, events: seq<Event>)
    requires forall k :: 0 <= k < |events| ==> !events[k].OnTick?
    ensures var s := Run(Begin(data), events);
      if s.status == Complete && s.sent != [] then AllFull(s.sent[..|s.sent|-1]) else AllFull(s.sent)
    decreases |events|
  {
    if events != [] {
      var front, e := events[..|events|-1], events[|events|-1];
      assert front + [e] == events;
      FullUnlessTicked(data, front);
      if Enabled(Run(Begin(data), front), e) {
        RunOneMore(data, front, e);
        RunKeeps(data, front);
        hide Run, Flatten, Lines, Conserved, Begin, FirstLine;
        FullStep(Run(Begin(data), front), e, data);
      }
    }
  }

  lemma FullStep(s: Stream, e: Event, data: string)
    requires Sized(s) && Timed(s) && Enabled(s, e) && !e.OnTick?
    requires if s.status == Complete && s.sent != [] then AllFull(s.sent[..|s.sent|-1]) else AllFull(s.sent)
    ensures var s' := Occur(s, e);
      if s'.status == Complete && s'.sent != [] then AllFull(s'.sent[..|s'.sent|-1]) else AllFull(s'.sent)
  {
    hide FirstLine;
    assert (s.sent + [s.lines])[..|s.sent|] == s.sent;
  }

  // --- The loop comes to an end ---

  function Work(s: Stream): nat {
    2 * |s.todo| + |s.channel| + (if s.closed then 0 else 1) + (if s.status == Running then 1 else 0)
  }

  // Until it has ended, the loop or its producer can go on; every such step
  // brings the end closer and the timer never undoes that.
  lemma Progress(s: Stream, e: Event, data: string)
    requires Ok(s, data)
    ensures s.status == Running ==> Enabled(s, Produce) || Enabled(s, OnLine(false))
    ensures Enabled(s, e) ==>
      if e.Produce? || e.OnLine? then Work(Occur(s, e)) < Work(s) else Work(Occur(s, e)) <= Work(s)
  {
    hide Conserved, Timed;
  }

  predicate Moving(s: Stream, e: Event) { Enabled(s, e) && (e.Produce? || e.OnLine?) }

  function Moves(s: Stream, events: seq<Event>): nat
    decreases |events|
  {
    if events == [] then 0
    else Moves(s, events[..|events|-1]) + if Moving(Run(s, events[..|events|-1]), events[|events|-1]) then 1 else 0
  }

  // No schedule keeps the loop busy for more than a number of steps linear in the output.
  lemma {:induction false} Bounded(data: string, events: seq<Event>)
    ensures Moves(Begin(data), events) + Work(Run(Begin(data), events)) <= 2 * |data| + 2
    decreases |events|
  {
    if events != [] {
      hide Ok, Occur, Enabled;
      Bounded(data, events[..|events|-1]);
      RunKeeps(data, events[..|events|-1]);
      var before := Run(Begin(data), events[..|events|-1]);
      Progress(before, events[|events|-1], data);
    }
  }

  // --- The loop itself ---

  lemma RunSnoc(s: Stream, events: seq<Event>, k: nat)
    requires k < |events|
    ensures Run(s, events[..k+1]) ==
      if Enabled(Run(s, events[..k]), events[k]) then Occur(Run(s, events[..k]), events[k]) else Run(s, events[..k])
  {
    assert events[..k+1][..k] == events[..k];
  }

  lemma PackagesSnoc(sent: seq<seq<string>>, last: seq<string>)
    ensures Packages([]) == [] && Packages(sent + [last]) == Packages(sent) + [Concat(last)]
  {
    assert (sent + [last])[..|sent|] == sent;
  }

  // processReq for a streamed response: its variables and what its two
  // goroutines do to them. `batches` remembers the lines of each package.
  class Responder {
    var todo: string
    var channel: seq<string>
    var closed: bool
    var lines: seq<string>
    var packages: seq<string>
    var armed: bool
    var tick: bool
    var status: Status
    ghost var batches: seq<seq<string>>

    ghost function State(): Stream reads this { Stream(todo, channel, closed, lines, batches, armed, tick, status) }

    ghost predicate Valid() reads this { packages == Packages(batches) }

    constructor (data: string)
      ensures State() == Begin(data) && Valid()
    {
      todo, channel, closed, lines, packages, armed, tick, status, batches := data, [], false, [], [], true, false,
        Running, [];
    }

    method Send(fails: bool)
      requires Valid() && status == Running
      modifies this`packages, this`lines, this`status, this`batches
      ensures Valid() && State() == Flush(old(State()), fails)
    {
      if lines != [] {
        if fails {
          status := Broken;
        } else {
          PackagesSnoc(batches, lines);
          packages, batches, lines := packages + [Concat(lines)], batches + [lines], [];
        }
      }
    }

    method ReadLine()
      requires Valid() && Enabled(State(), Produce)
      modifies this`channel, this`todo, this`closed
      ensures Valid() && State() == Occur(old(State()), Produce)
    {
      var line := FirstLine(todo);
      if line == "" {
        closed := true;
      } else {
        channel, todo := channel + [line], todo[|line|..];
      }
    }

    method Receive(fails: bool)
      requires Valid() && Enabled(State(), OnLine(fails))
      modifies this
      ensures Valid() && State() == Occur(old(State()), OnLine(fails))
    {
      hide Packages, FirstLine;
      if channel == [] {
        Send(fails);
        if status != Broken { status := Complete; }
        return;
      }
      lines, channel := lines + [channel[0]], channel[1..];
      if |lines| >= MAX_LINES { Send(fails); }
      if status == Running && |lines| == 1 { armed := true; }
    }

    method Handle(e: Event)
      requires Valid()
      modifies this
      ensures Valid() && State() == if Enabled(old(State()), e) then Occur(old(State()), e) else old(State())
    {
      hide Packages;
      match e {
        case Produce => if !closed && |channel| < CAPACITY { ReadLine(); }
        case Expire => if armed { armed, tick := false, true; }
        case OnTick(fails) => if status == Running && tick { tick := false; Send(fails); }
        case OnLine(fails) => if status == Running && (channel != [] || closed) { Receive(fails); }
      }
    }
  }

  // A whole response under one schedule.
  method ProcessReq(data: string, events: seq<Event>) returns (packages: seq<string>, status: Status)
    ensures Concat(packages) <= data
    ensures status == Complete ==> Concat(packages) == data
    ensures status == Broken ==> Concat(packages) != data
    ensures packages == Packages(Run(Begin(data), events).sent) && status == Run(Begin(data), events).status
  {
    hide Enabled, Occur, Packages;
    var r := new Responder(data);
    for k := 0 to |events|
      invariant fresh(r) && r.Valid() && r.State() == Run(Begin(data), events[..k])
    {
      RunSnoc(Begin(data), events, k);
      r.Handle(events[k]);
    }
    assert events[..|events|] == events;
    SentIsPrefix(data, events);
    return r.packages, r.status;
  }
}
