/**
 The TCP session with four actors: a reader, an output actor that uses a timer
 as a condition variable, and two deadline checkers. One step per handler; any
 interleaving of handlers, deliveries from the channel and passing time is a run.
 */
module TcpSessions {
  import opened Basics

  const TIMEOUT := 30

  // ---------------------------------------------------------------------------
  // Timers
  // ---------------------------------------------------------------------------

  datatype Time = MinTime | At(seconds: int) | MaxTime

  predicate Passed(e: Time, now: int) {
    e.MinTime? || (e.At? && e.seconds <= now)
  }

  /** `Ready`: the wait was cancelled and its handler is queued. */
  datatype Wait = Idle | Pending | Ready

  datatype Timer = Timer(expiry: Time, wait: Wait)

  function Cancel(t: Timer): Timer {
    if t.wait == Pending then t.(wait := Ready) else t
  }

  /** expires_at and expires_after cancel a pending wait, which makes its handler runnable. */
  function SetExpiry(t: Timer, e: Time): Timer {
    Cancel(t).(expiry := e)
  }

  function StartWait(t: Timer): Timer {
    t.(wait := Pending)
  }

  /** The handler of the timer's wait can run. */
  predicate Runnable(t: Timer, now: int) {
    t.wait == Ready || (t.wait == Pending && Passed(t.expiry, now))
  }

  // ---------------------------------------------------------------------------
  // The session object
  // ---------------------------------------------------------------------------

  datatype Core = Core(
    open: bool,                  // the socket is open; stopped() is its negation
    joined: bool,                // subscribed to the channel
    reading: bool,               // an async_read_until is outstanding
    writing: Option<string>,     // the message of the outstanding async_write
    inputBuffer: string,
    queue: seq<string>,          // output_queue_
    input: Timer,                // input_deadline_
    nonEmpty: Timer,             // non_empty_output_queue_
    output: Timer                // output_deadline_
  )

  function Enqueue(c: Core, msg: string): Core {
    c.(queue := c.queue + [msg], nonEmpty := SetExpiry(c.nonEmpty, MinTime))
  }

  function ReadLine(c: Core, now: int): Core {
    c.(input := SetExpiry(c.input, At(now + TIMEOUT)), reading := true)
  }

  function AwaitOutput(c: Core): Core {
    c.(nonEmpty := StartWait(c.nonEmpty))
  }

  function WriteLine(c: Core, now: int): Core
    requires c.queue != []
  {
    c.(output := SetExpiry(c.output, At(now + TIMEOUT)), writing := Some(c.queue[0]))
  }

  function Stopped(c: Core): Core {
    c.(joined := false, open := false,
       input := Cancel(c.input), nonEmpty := Cancel(c.nonEmpty), output := Cancel(c.output))
  }

  /** Index of the first newline, or the length. */
  function FirstNewline(s: string): (n: nat)
    ensures n <= |s| && '\n' !in s[..n] && (n < |s| ==> s[n] == '\n')
  {
    if s == [] then 0 else if s[0] == '\n' then 0 else 1 + FirstNewline(s[1..])
  }

  /** The first line of the input, without its newline. */
  function FirstLine(s: string): (line: string)
    ensures '\n' !in line
  {
    s[..FirstNewline(s)]
  }

  /** What follows the first line and its newline. */
  function AfterLine(s: string): string {
    var n := FirstNewline(s);
    if n < |s| then s[n + 1..] else ""
  }

  /** The constructor followed by start(). */
  function Started(now: int): Core {
    var built := Core(true, true, false, None, "", [], Timer(MaxTime, Idle), Timer(MaxTime, Idle), Timer(MaxTime, Idle));
    var reading := ReadLine(built, now);
    var checked := reading.(input := StartWait(reading.input));
    var waiting := AwaitOutput(checked);
    waiting.(output := StartWait(waiting.output))
  }

  /** The handler of async_read_until; `received` are the bytes the operation appended to input_buffer_. */
  function OnRead(c: Core, ok: bool, received: string, now: int): Core {
    var c0 := c.(reading := false, inputBuffer := c.inputBuffer + received);
    if !c.open then c0
    else if !ok then Stopped(c0)
    else
      var msg := FirstLine(c0.inputBuffer);
      var c1 := c0.(inputBuffer := AfterLine(c0.inputBuffer));
      var c2 := if msg != "" then Enqueue(c1, msg + "\n")       // the channel delivers to this session too
                else if c1.queue == [] then Enqueue(c1, "\n")
                else c1;
      ReadLine(c2, now)
  }

  /** The line a read hands to the channel: the first one, if it is not a heartbeat. */
  function Published(c: Core, ok: bool, received: string): Option<string> {
    var input := c.inputBuffer + received;
    var line := FirstLine(input);
    if c.open && ok && line != "" then Some(line) else None
  }

  function OnQueueWait(c: Core, now: int): Core {
    var c0 := c.(nonEmpty := c.nonEmpty.(wait := Idle));
    if !c.open then c0
    else if c0.queue == [] then AwaitOutput(c0.(nonEmpty := SetExpiry(c0.nonEmpty, MaxTime)))
    else WriteLine(c0, now)
  }

  function OnWrite(c: Core, ok: bool): Core
    requires c.queue != []
  {
    var c0 := c.(writing := None);
    if !c.open then c0
    else if ok then AwaitOutput(c0.(queue := c0.queue[1..]))
    else Stopped(c0)
  }

  function OnInputWait(c: Core, now: int): Core {
    var c0 := c.(input := c.input.(wait := Idle));
    if !c.open then c0
    else if Passed(c0.input.expiry, now) then Stopped(c0)
    else c0.(input := StartWait(c0.input))
  }

  function OnOutputWait(c: Core, now: int): Core {
    var c0 := c.(output := c.output.(wait := Idle));
    if !c.open then c0
    else if Passed(c0.output.expiry, now) then Stopped(c0)
    else c0.(output := StartWait(c0.output))
  }

  /** The session with its fields updated in place by the handlers. */
  class TcpSession {
    var open: bool
    var joined: bool
    var reading: bool
    var writing: Option<string>
    var inputBuffer: string
    var outputQueue: seq<string>
    var inputDeadline: Timer
    var nonEmptyOutputQueue: Timer
    var outputDeadline: Timer

    function Value(): Core
      reads this
    {
      Core(open, joined, reading, writing, inputBuffer, outputQueue, inputDeadline, nonEmptyOutputQueue, outputDeadline)
    }

    constructor Start(now: int)
      ensures Value() == Started(now)
      ensures open && joined && reading && writing.None? && inputBuffer == "" && outputQueue == []
      ensures inputDeadline == Timer(At(now + 30), Pending)
      ensures nonEmptyOutputQueue == outputDeadline == Timer(MaxTime, Pending)
    {
      open, joined, reading, writing, inputBuffer, outputQueue := true, true, false, None, "", [];
      inputDeadline, nonEmptyOutputQueue, outputDeadline := Timer(MaxTime, Idle), Timer(MaxTime, Idle), Timer(MaxTime, Idle);
      new;
      StartReading(now);
      inputDeadline := StartWait(inputDeadline);
      nonEmptyOutputQueue := StartWait(nonEmptyOutputQueue);
      outputDeadline := StartWait(outputDeadline);
    }

    method StartReading(now: int)
      modifies this
      ensures Value() == ReadLine(old(Value()), now)
      ensures reading && inputDeadline.expiry == At(now + 30)
      ensures old(inputDeadline).wait == Pending ==> inputDeadline.wait == Ready
    {
      inputDeadline := SetExpiry(inputDeadline, At(now + TIMEOUT));
      reading := true;
    }

    method Deliver(msg: string)
      modifies this
      ensures Value() == Enqueue(old(Value()), msg + "\n")
      ensures outputQueue == old(outputQueue) + [msg + "\n"] && nonEmptyOutputQueue.expiry == MinTime
      ensures old(nonEmptyOutputQueue).wait == Pending ==> nonEmptyOutputQueue.wait == Ready
    {
      outputQueue := outputQueue + [msg + "\n"];
      nonEmptyOutputQueue := SetExpiry(nonEmptyOutputQueue, MinTime);
    }

    method Stop()
      modifies this
      ensures Value() == Stopped(old(Value()))
      ensures !open && !joined && outputQueue == old(outputQueue) && reading == old(reading) && writing == old(writing)
      ensures inputDeadline.wait != Pending && nonEmptyOutputQueue.wait != Pending && outputDeadline.wait != Pending
    {
      joined := false;
      open := false;
      inputDeadline := Cancel(inputDeadline);
      nonEmptyOutputQueue := Cancel(nonEmptyOutputQueue);
      outputDeadline := Cancel(outputDeadline);
    }

    /** Returns the line handed to the channel, which delivers it to every subscriber; `line` is the one that was cut off. */
    method ReadHandler(ok: bool, received: string, now: int) returns (published: Option<string>, ghost line: string)
      modifies this
      ensures Value() == OnRead(old(Value()), ok, received, now)
      ensures published == Published(old(Value()), ok, received)
      ensures old(open) && ok && '\n' in old(inputBuffer) + received ==>
        && '\n' !in line && old(inputBuffer) + received == line + "\n" + inputBuffer
        && published == (if line == "" then None else Some(line))
        && outputQueue == old(outputQueue) + (if line != "" then [line + "\n"] else if old(outputQueue) == [] then ["\n"] else [])
        && open && reading && inputDeadline.expiry == At(now + 30)
      ensures !(old(open) && ok) ==> published.None? && inputBuffer == old(inputBuffer) + received && outputQueue == old(outputQueue)
      ensures old(open) && !ok ==> !open && !joined
    {
      ghost var input := inputBuffer + received;
      line := FirstLine(input);
      if '\n' in input {
        LineCut(input);
      }
      hide FirstLine, AfterLine, SetExpiry, Cancel;
      published := None;
      reading := false;
      inputBuffer := inputBuffer + received;
      if !open {
        return;
      }
      if !ok {
        Stop();
        return;
      }
      var msg := FirstLine(inputBuffer);
      inputBuffer := AfterLine(inputBuffer);
      if msg != "" {
        published := Some(msg);
        Deliver(msg);
      } else if outputQueue == [] {
        outputQueue := ["\n"];
        nonEmptyOutputQueue := SetExpiry(nonEmptyOutputQueue, MinTime);
      }
      StartReading(now);
    }

    method QueueWaitHandler(now: int)
      modifies this
      ensures Value() == OnQueueWait(old(Value()), now)
      ensures outputQueue == old(outputQueue) && open == old(open)
      ensures open && outputQueue == [] ==> nonEmptyOutputQueue == Timer(MaxTime, Pending) && writing == old(writing)
      ensures open && outputQueue != [] ==>
        writing == Some(outputQueue[0]) && outputDeadline.expiry == At(now + 30) && nonEmptyOutputQueue.wait == Idle
    {
      nonEmptyOutputQueue := nonEmptyOutputQueue.(wait := Idle);
      if !open {
        return;
      }
      if outputQueue == [] {
        nonEmptyOutputQueue := SetExpiry(nonEmptyOutputQueue, MaxTime);
        nonEmptyOutputQueue := StartWait(nonEmptyOutputQueue);
      } else {
        outputDeadline := SetExpiry(outputDeadline, At(now + TIMEOUT));
        writing := Some(outputQueue[0]);
      }
    }

    method WriteHandler(ok: bool)
      requires outputQueue != []
      modifies this
      ensures Value() == OnWrite(old(Value()), ok)
      ensures writing.None? && (open <==> old(open) && ok)
      ensures outputQueue == if open then old(outputQueue)[1..] else old(outputQueue)
      ensures open ==> nonEmptyOutputQueue.wait == Pending
    {
      writing := None;
      if !open {
        return;
      }
      if ok {
        outputQueue := outputQueue[1..];
        nonEmptyOutputQueue := StartWait(nonEmptyOutputQueue);
      } else {
        Stop();
      }
    }

    method InputDeadlineHandler(now: int)
      modifies this
      ensures Value() == OnInputWait(old(Value()), now)
      ensures forall e :: old(inputDeadline).expiry == At(e) ==> (open <==> old(open) && now < e)
      ensures open ==> inputDeadline.wait == Pending
    {
      inputDeadline := inputDeadline.(wait := Idle);
      if !open {
        return;
      }
      if Passed(inputDeadline.expiry, now) {
        Stop();
      } else {
        inputDeadline := StartWait(inputDeadline);
      }
    }

    method OutputDeadlineHandler(now: int)
      modifies this
      ensures Value() == OnOutputWait(old(Value()), now)
      ensures forall e :: old(outputDeadline).expiry == At(e) ==> (open <==> old(open) && now < e)
      ensures open ==> outputDeadline.wait == Pending
    {
      outputDeadline := outputDeadline.(wait := Idle);
      if !open {
        return;
      }
      if Passed(outputDeadline.expiry, now) {
        Stop();
      } else {
        outputDeadline := StartWait(outputDeadline);
      }
    }
  }

  // ---------------------------------------------------------------------------
  // Runs
  // ---------------------------------------------------------------------------

  datatype Cause = Running | ReadError | WriteError | InputDeadline(at: int) | OutputDeadline(at: int)

  /** What happened so far. */
  datatype History = History(
    enqueued: seq<string>,      // every message put into the output queue
    written: seq<string>,       // every message whose write completed without error
    received: string,           // every byte read
    lines: seq<string>,         // every line taken from the input
    published: seq<string>,     // every line handed to the channel
    lastRead: int,              // when the latest read started
    lastWrite: Option<int>,     // when the latest write started
    stops: nat,                 // calls of stop()
    cause: Cause
  )

  datatype State = State(c: Core, h: History, now: int)

  datatype Event =
    | Tick(seconds: nat)
    | Delivery(msg: string)
    | ReadDone(ok: bool, received: string)
    | QueueWaitDone
    | WriteDone(ok: bool)
    | InputWaitDone
    | OutputWaitDone

  /** The contracts of the library: which handler may run when. */
  predicate Enabled(s: State, e: Event) {
    match e
    case Tick(_) => true
    case Delivery(_) => s.c.joined
    case ReadDone(ok, received) =>
      s.c.reading && (ok ==> '\n' in s.c.inputBuffer + received)
    case QueueWaitDone => Runnable(s.c.nonEmpty, s.now)
    case WriteDone(_) => s.c.writing.Some? && s.c.queue != []
    case InputWaitDone => Runnable(s.c.input, s.now)
    case OutputWaitDone => Runnable(s.c.output, s.now)
  }

  function CoreAfter(s: State, e: Event): Core
    requires Enabled(s, e)
  {
    match e
    case Tick(_) => s.c
    case Delivery(msg) => Enqueue(s.c, msg + "\n")
    case ReadDone(ok, received) => OnRead(s.c, ok, received, s.now)
    case QueueWaitDone => OnQueueWait(s.c, s.now)
    case WriteDone(ok) => OnWrite(s.c, ok)
    case InputWaitDone => OnInputWait(s.c, s.now)
    case OutputWaitDone => OnOutputWait(s.c, s.now)
  }

  function CauseOf(e: Event, now: int): Cause {
    match e
    case ReadDone(_, _) => ReadError
    case WriteDone(_) => WriteError
    case InputWaitDone => InputDeadline(now)
    case OutputWaitDone => OutputDeadline(now)
    case _ => Running
  }

  function OptionToSeq(o: Option<string>): seq<string> {
    match o
    case None => []
    case Some(s) => [s]
  }

  /** Observes one step. */
  function Record(s: State, e: Event, c': Core): History {
    var h := s.h;
    var live := s.c.open;
    var h1 := h.(
      enqueued := h.enqueued + if |c'.queue| > |s.c.queue| then [c'.queue[|c'.queue| - 1]] else [],
      written := h.written + if e.WriteDone? && e.ok && live && s.c.writing.Some? then [s.c.writing.value] else [],
      lastWrite := if s.c.writing.None? && c'.writing.Some? then Some(s.now) else h.lastWrite,
      stops := if live && !c'.open then h.stops + 1 else h.stops,
      cause := if live && !c'.open then CauseOf(e, s.now) else h.cause);
    if e.ReadDone? then
      var input := s.c.inputBuffer + e.received;
      h1.(received := h.received + e.received,
          lines := if live && e.ok then h.lines + [FirstLine(input)] else h.lines,
          published := h.published + OptionToSeq(Published(s.c, e.ok, e.received)),
          lastRead := if live && e.ok then s.now else h.lastRead)
    else h1
  }

  function Apply(s: State, e: Event): State
    requires Enabled(s, e)
  {
    var c' := CoreAfter(s, e);
    State(c', Record(s, e, c'), if e.Tick? then s.now + e.seconds else s.now)
  }

  function Initial(now: int): State {
    State(Started(now), History([], [], "", [], [], now, None, 0, Running), now)
  }

  ghost predicate IsRun(states: seq<State>, events: seq<Event>) {
    && |states| == |events| + 1
    && states[0] == Initial(states[0].now)
    && forall i :: 0 <= i < |events| ==> Enabled(states[i], events[i]) && states[i + 1] == Apply(states[i], events[i])
  }

  // ---------------------------------------------------------------------------
  // Invariants
  // ---------------------------------------------------------------------------

  function B2N(b: bool): nat {
    if b then 1 else 0
  }

  /** Operations whose handler has not run yet. */
  function Outstanding(c: Core): nat {
    B2N(c.reading) + B2N(c.writing.Some?) + B2N(c.input.wait != Idle) + B2N(c.nonEmpty.wait != Idle) + B2N(c.output.wait != Idle)
  }

  /** A live session: one read, two deadline waits, and a queue wait or a write but not both. */
  ghost predicate ActorsAlive(c: Core) {
    c.open ==> c.joined && c.reading && c.input.wait != Idle && c.output.wait != Idle
               && (c.nonEmpty.wait == Idle <==> c.writing.Some?)
  }

  ghost predicate StoppedForGood(c: Core, h: History) {
    && h.stops == (if c.open then 0 else 1)
    && (!c.open ==> !c.joined && c.input.wait != Pending && c.nonEmpty.wait != Pending && c.output.wait != Pending)
  }

  /** The output actor never oversleeps: with messages queued its timer has expired. */
  ghost predicate QueueSignalled(c: Core) {
    c.open && c.queue != [] ==> c.nonEmpty.expiry == MinTime
  }

  /** The message being written stays at the front of the queue. */
  ghost predicate FrontIsWritten(c: Core) {
    c.writing.Some? ==> c.queue != [] && c.queue[0] == c.writing.value
  }

  /** Nothing is lost, repeated or reordered on the way out. */
  ghost predicate OutputConserved(c: Core, h: History) {
    h.written + c.queue == h.enqueued
  }

  ghost predicate DeadlinesSet(c: Core, h: History) {
    c.open ==>
      && c.input.expiry == At(h.lastRead + TIMEOUT)
      && c.output.expiry == (if h.lastWrite.Some? then At(h.lastWrite.value + TIMEOUT) else MaxTime)
  }

  /** A deadline stops the session no sooner than 30 seconds after the latest read or write started. */
  ghost predicate DeadlinesKept(c: Core, h: History) {
    && (c.open <==> h.cause.Running?)
    && (h.cause.InputDeadline? ==> h.cause.at >= h.lastRead + TIMEOUT)
    && (h.cause.OutputDeadline? ==> h.lastWrite.Some? && h.cause.at >= h.lastWrite.value + TIMEOUT)
  }

  /** The lines, each with its newline. */
  function Unlines(lines: seq<string>): string {
    if lines == [] then "" else Unlines(lines[..|lines| - 1]) + lines[|lines| - 1] + "\n"
  }

  /** The lines that are no heartbeats. */
  function NonEmpty(lines: seq<string>): seq<string> {
    if lines == [] then [] else
      var last := lines[|lines| - 1];
      NonEmpty(lines[..|lines| - 1]) + if last == "" then [] else [last]
  }

  /** Every line that is no heartbeat has been handed to the channel, in order. */
  ghost predicate AllPublished(h: History) {
    h.published == NonEmpty(h.lines)
  }

  /** The lines taken so far and the input buffer are the bytes received. */
  ghost predicate InputConserved(c: Core, h: History) {
    Unlines(h.lines) + c.inputBuffer == h.received
  }

  ghost predicate Inv(s: State) {
    && ActorsAlive(s.c)
    && StoppedForGood(s.c, s.h)
    && QueueSignalled(s.c)
    && FrontIsWritten(s.c)
    && OutputConserved(s.c, s.h)
    && DeadlinesSet(s.c, s.h)
    && DeadlinesKept(s.c, s.h)
    && InputConserved(s.c, s.h)
    && AllPublished(s.h)
  }

  /** A line with its newline is cut off the front of the input. */
  lemma LineCut(input: string)
    requires '\n' in input
    ensures input == FirstLine(input) + "\n" + AfterLine(input)
  {
    assert FirstNewline(input) < |input|;
    hide FirstNewline;
  }

  lemma UnlinesPush(lines: seq<string>, line: string)
    ensures Unlines(lines + [line]) == Unlines(lines) + line + "\n"
  {
    assert (lines + [line])[..|lines|] == lines;
  }

  lemma Regroup(u: string, b: string, m: string, x: string, y: string)
    requires b + m == x + "\n" + y
    ensures u + x + "\n" + y == u + b + m
  {
    assert u + x + "\n" + y == u + (x + "\n" + y);
    assert u + (b + m) == u + b + m;
  }

  lemma Reassociate(a: string, b: string, c: string)
    ensures a + (b + c) == a + b + c
  {
  }

  /** What each step does to the input side. */
  lemma InputSide(s: State, e: Event)
    requires Enabled(s, e)
    ensures var s', input := Apply(s, e), if e.ReadDone? then s.c.inputBuffer + e.received else s.c.inputBuffer;
      var taken := e.ReadDone? && e.ok && s.c.open;
      && s'.h.received == (if e.ReadDone? then s.h.received + e.received else s.h.received)
      && s'.h.lines == (if taken then s.h.lines + [FirstLine(input)] else s.h.lines)
      && s'.c.inputBuffer == (if taken then AfterLine(input) else input)
  {
    hide FirstLine, AfterLine, SetExpiry, StartWait, Cancel, CauseOf;
  }

  lemma KeepInput(s: State, e: Event)
    requires Enabled(s, e) && InputConserved(s.c, s.h)
    ensures InputConserved(Apply(s, e).c, Apply(s, e).h)
  {
    InputSide(s, e);
    hide Apply, Unlines, FirstLine, AfterLine;
    if e.ReadDone? {
      if s.c.open && e.ok {
        var input := s.c.inputBuffer + e.received;
        LineCut(input);
        UnlinesPush(s.h.lines, FirstLine(input));
        Regroup(Unlines(s.h.lines), s.c.inputBuffer, e.received, FirstLine(input), AfterLine(input));
      } else {
        Reassociate(Unlines(s.h.lines), s.c.inputBuffer, e.received);
      }
    }
  }

  /** The message a handler or a delivery puts into the queue, if any. */
  function Added(s: State, e: Event): seq<string> {
    match e
    case Delivery(msg) => [msg + "\n"]
    case ReadDone(ok, received) =>
      var input := s.c.inputBuffer + received;
      var line := FirstLine(input);
      if !s.c.open || !ok then [] else if line != "" then [line + "\n"] else if s.c.queue == [] then ["\n"] else []
    case _ => []
  }

  /** What a read does to the output side. */
  lemma ReadOutput(s: State, e: Event)
    requires Enabled(s, e) && e.ReadDone?
    ensures var s' := Apply(s, e);
      && s'.c.queue == s.c.queue + Added(s, e) && s'.h.enqueued == s.h.enqueued + Added(s, e)
      && s'.h.written == s.h.written && s'.c.writing == s.c.writing
  {
    hide FirstLine, AfterLine, SetExpiry, StartWait, Cancel, CauseOf;
  }

  /** What the other steps do to the output side; only a completed write takes a message out. */
  lemma OtherOutput(s: State, e: Event)
    requires Enabled(s, e) && !e.ReadDone?
    ensures var s' := Apply(s, e);
      if e.WriteDone? && e.ok && s.c.open then
        && s'.c.queue == s.c.queue[1..] && s'.h.enqueued == s.h.enqueued
        && s'.h.written == s.h.written + [s.c.writing.value] && s'.c.writing.None?
      else
        && s'.c.queue == s.c.queue + Added(s, e) && s'.h.enqueued == s.h.enqueued + Added(s, e)
        && s'.h.written == s.h.written
        && (s'.c.writing == s.c.writing || s'.c.writing.None? || (s.c.queue != [] && s'.c.writing == Some(s.c.queue[0])))
  {
    hide FirstLine, AfterLine, SetExpiry, StartWait, Cancel, Runnable, CauseOf;
  }

  lemma KeepOutput(s: State, e: Event)
    requires Enabled(s, e) && OutputConserved(s.c, s.h) && FrontIsWritten(s.c)
    ensures OutputConserved(Apply(s, e).c, Apply(s, e).h) && FrontIsWritten(Apply(s, e).c)
  {
    if e.ReadDone? {
      ReadOutput(s, e);
    } else {
      OtherOutput(s, e);
    }
    var s', q, added := Apply(s, e), s.c.queue, Added(s, e);
    hide Apply, Added, Enabled;
    if e.WriteDone? && e.ok && s.c.open {
      assert s.h.written + [q[0]] + q[1..] == s.h.written + q;
    } else {
      assert s.h.written + (q + added) == s.h.written + q + added;
    }
  }

  lemma KeepActors(s: State, e: Event)
    requires Enabled(s, e) && ActorsAlive(s.c) && StoppedForGood(s.c, s.h) && QueueSignalled(s.c)
    ensures ActorsAlive(Apply(s, e).c) && StoppedForGood(Apply(s, e).c, Apply(s, e).h) && QueueSignalled(Apply(s, e).c)
  {
  }

  lemma KeepDeadlines(s: State, e: Event)
    requires Enabled(s, e) && DeadlinesSet(s.c, s.h) && DeadlinesKept(s.c, s.h) && ActorsAlive(s.c) && StoppedForGood(s.c, s.h)
    ensures DeadlinesSet(Apply(s, e).c, Apply(s, e).h) && DeadlinesKept(Apply(s, e).c, Apply(s, e).h)
  {
  }

  /** What each step does to the lines taken and published. */
  lemma PublishedSide(s: State, e: Event)
    requires Enabled(s, e)
    ensures var h, h' := s.h, Apply(s, e).h;
      if e.ReadDone? && e.ok && s.c.open then
        var line := FirstLine(s.c.inputBuffer + e.received);
        h'.lines == h.lines + [line] && h'.published == h.published + if line == "" then [] else [line]
      else h'.lines == h.lines && h'.published == h.published
  {
    hide FirstLine, AfterLine, SetExpiry, StartWait, Cancel, CauseOf;
  }

  lemma KeepPublished(s: State, e: Event)
    requires Enabled(s, e) && AllPublished(s.h)
    ensures AllPublished(Apply(s, e).h)
  {
    PublishedSide(s, e);
    hide Apply, FirstLine;
    if e.ReadDone? && e.ok && s.c.open {
      var line := FirstLine(s.c.inputBuffer + e.received);
      assert (s.h.lines + [line])[..|s.h.lines|] == s.h.lines;
    }
  }

  lemma KeepInv(s: State, e: Event)
    requires Inv(s) && Enabled(s, e)
    ensures Inv(Apply(s, e))
  {
    hide AllPublished;
    KeepPublished(s, e);
    hide Apply, ActorsAlive, StoppedForGood, QueueSignalled, FrontIsWritten, OutputConserved, DeadlinesSet, DeadlinesKept, InputConserved;
    KeepInput(s, e);
    KeepOutput(s, e);
    KeepActors(s, e);
    KeepDeadlines(s, e);
  }

  lemma InitialInv(now: int)
    ensures Inv(Initial(now))
  {
  }

  lemma {:induction false} RunInv(states: seq<State>, events: seq<Event>, i: nat)
    requires IsRun(states, events) && i < |states|
    ensures Inv(states[i])
  {
    hide Inv, Apply, Enabled, Initial;
    if i == 0 {
      InitialInv(states[0].now);
    } else {
      RunInv(states, events, i - 1);
      assert Enabled(states[i - 1], events[i - 1]) && states[(i - 1) + 1] == Apply(states[i - 1], events[i - 1]);
      KeepInv(states[i - 1], events[i - 1]);
    }
  }

  // ---------------------------------------------------------------------------
  // Theorems
  // ---------------------------------------------------------------------------

  /** In every live state four operations are outstanding, and a queued message has a write in flight or a runnable waker. */
  lemma LiveSession(states: seq<State>, events: seq<Event>, i: nat)
    requires IsRun(states, events) && i < |states| && states[i].c.open
    ensures var c := states[i].c;
      && Outstanding(c) == 4
      && (c.nonEmpty.wait != Idle <==> c.writing.None?)
      && (c.queue != [] ==> c.writing == Some(c.queue[0]) || Runnable(c.nonEmpty, states[i].now))
  {
    RunInv(states, events, i);
    hide IsRun;
  }

  /** Completed writes followed by the queue are everything enqueued, in order. */
  lemma OutputInOrder(states: seq<State>, events: seq<Event>, i: nat)
    requires IsRun(states, events) && i < |states|
    ensures states[i].h.written + states[i].c.queue == states[i].h.enqueued
    ensures Unlines(states[i].h.lines) + states[i].c.inputBuffer == states[i].h.received
  {
    RunInv(states, events, i);
    hide IsRun;
  }

  /** stop() runs at most once, and only a deadline that is 30 seconds old causes it. */
  lemma StopsOnceAndInTime(states: seq<State>, events: seq<Event>, i: nat)
    requires IsRun(states, events) && i < |states|
    ensures var h := states[i].h;
      && h.stops <= 1 && (h.stops == 0 <==> states[i].c.open)
      && (h.cause.InputDeadline? ==> h.cause.at - h.lastRead >= 30)
      && (h.cause.OutputDeadline? ==> h.lastWrite.Some? && h.cause.at - h.lastWrite.value >= 30)
  {
    RunInv(states, events, i);
    hide IsRun;
  }

  /** A line is echoed to its sender; a heartbeat is answered only if nothing is queued; reading goes on. */
  lemma LinesAndHeartbeats(states: seq<State>, events: seq<Event>, i: nat)
    requires IsRun(states, events) && i < |events| && states[i].c.open
    requires events[i].ReadDone? && events[i].ok
    ensures var s, s' := states[i], states[i + 1];
      && |s'.h.lines| == |s.h.lines| + 1 && s'.h.lines[..|s.h.lines|] == s.h.lines
      && var line := s'.h.lines[|s.h.lines|];
      && '\n' !in line && s'.c.open && s'.h.lastRead == s.now
      && s'.h.enqueued == s.h.enqueued +
           if line != "" then [line + "\n"] else if s.h.written == s.h.enqueued then ["\n"] else []
  {
    RunInv(states, events, i);
    var s := states[i];
    assert Enabled(s, events[i]) && states[i + 1] == Apply(s, events[i]);
    hide IsRun, Runnable, DeadlinesSet, DeadlinesKept, InputConserved, Unlines;
    assert s.c.queue == [] <==> s.h.written == s.h.enqueued;
  }

  /** A deadline handler stops a live session exactly when the latest read or write began 30 seconds ago or earlier. */
  lemma DeadlinesFireExactly(states: seq<State>, events: seq<Event>, i: nat)
    requires IsRun(states, events) && i < |states| && states[i].c.open
    ensures var s := states[i];
      && (Enabled(s, InputWaitDone) ==> (Apply(s, InputWaitDone).c.open <==> s.now - s.h.lastRead < 30))
      && (Enabled(s, OutputWaitDone) ==>
            (Apply(s, OutputWaitDone).c.open <==> s.h.lastWrite.None? || s.now - s.h.lastWrite.value < 30))
  {
    RunInv(states, events, i);
    hide IsRun;
  }

  /**
   A live session stops on an error of a read or a write and when a deadline handler
   finds that 30 seconds have passed, and on nothing else.
   */
  lemma StopsExactly(states: seq<State>, events: seq<Event>, i: nat)
    requires IsRun(states, events) && i < |events| && states[i].c.open
    ensures var s, e := states[i], events[i];
      !states[i + 1].c.open <==>
        || (e.ReadDone? && !e.ok) || (e.WriteDone? && !e.ok)
        || (e.InputWaitDone? && s.now - s.h.lastRead >= 30)
        || (e.OutputWaitDone? && s.h.lastWrite.Some? && s.now - s.h.lastWrite.value >= 30)
  {
    RunInv(states, events, i);
    assert Enabled(states[i], events[i]) && states[i + 1] == Apply(states[i], events[i]);
    hide IsRun, FirstLine, AfterLine, OutputConserved, InputConserved, AllPublished;
  }

  /** Every line that is no heartbeat goes to the channel, in order, and every delivery from it is queued with a newline. */
  lemma LinesArePublished(states: seq<State>, events: seq<Event>, i: nat)
    requires IsRun(states, events) && i < |states|
    ensures states[i].h.published == NonEmpty(states[i].h.lines)
    ensures i < |events| && events[i].Delivery? ==>
      && states[i + 1].h.enqueued == states[i].h.enqueued + [events[i].msg + "\n"]
      && states[i + 1].h.lines == states[i].h.lines && states[i + 1].c.open == states[i].c.open
  {
    RunInv(states, events, i);
    if i < |events| {
      assert Enabled(states[i], events[i]) && states[i + 1] == Apply(states[i], events[i]);
    }
    hide IsRun, FirstLine, AfterLine, NonEmpty;
  }

  /**
   When the output actor wakes, it writes the front message under a new deadline, or
   goes to sleep: then no passing of time wakes it, only the next message.
   */
  lemma OutputActorSleepsOrWrites(states: seq<State>, events: seq<Event>, i: nat)
    requires IsRun(states, events) && i < |events| && states[i].c.open && events[i].QueueWaitDone?
    ensures var s, s' := states[i], states[i + 1];
      && s'.c.queue == s.c.queue && s'.h.written == s.h.written
      && if s.c.queue == []
         then s'.c.writing.None? && s'.c.nonEmpty.wait == Pending && forall now :: !Runnable(s'.c.nonEmpty, now)
         else s'.c.writing == Some(s.c.queue[0]) && s'.h.lastWrite == Some(s.now) && s'.c.output.expiry == At(s.now + 30)
  {
    RunInv(states, events, i);
    assert Enabled(states[i], events[i]) && states[i + 1] == Apply(states[i], events[i]);
    hide IsRun, FirstLine, AfterLine, OutputConserved, InputConserved, AllPublished, DeadlinesKept, DeadlinesSet;
  }

  lemma WindDownStep(s: State, e: Event)
    requires !s.c.open && !s.c.joined && Enabled(s, e)
    ensures !Apply(s, e).c.open && Outstanding(Apply(s, e).c) == Outstanding(s.c) - B2N(!e.Tick?)
  {
    hide Record, FirstLine, AfterLine;
  }

  /** After stop() every handler step lowers the number of outstanding operations, and some handler can run until none is left. */
  lemma StoppedSessionWindsDown(states: seq<State>, events: seq<Event>, i: nat)
    requires IsRun(states, events) && i < |states| && !states[i].c.open
    ensures var s := states[i];
      && (forall e: Event :: Enabled(s, e) ==> !Apply(s, e).c.open && Outstanding(Apply(s, e).c) == Outstanding(s.c) - B2N(!e.Tick?))
      && (Outstanding(s.c) > 0 ==> exists e: Event :: !e.Tick? && Enabled(s, e))
  {
    RunInv(states, events, i);
    var s := states[i];
    forall e: Event | Enabled(s, e)
      ensures !Apply(s, e).c.open && Outstanding(Apply(s, e).c) == Outstanding(s.c) - B2N(!e.Tick?)
    {
      WindDownStep(s, e);
    }
    hide IsRun, Apply;
    if Outstanding(s.c) > 0 {
      var e := if s.c.reading then ReadDone(false, "")
               else if s.c.writing.Some? then WriteDone(false)
               else if s.c.input.wait != Idle then InputWaitDone
               else if s.c.nonEmpty.wait != Idle then QueueWaitDone
               else OutputWaitDone;
      assert !e.Tick? && Enabled(s, e);
    }
  }

  lemma ExtendRun(states: seq<State>, events: seq<Event>, e: Event)
    requires IsRun(states, events) && |states| > 0 && Enabled(states[|states| - 1], e)
    ensures IsRun(states + [Apply(states[|states| - 1], e)], events + [e])
  {
    hide Enabled, Apply, Initial;
    var s := Apply(states[|states| - 1], e);
    forall i | 0 <= i < |events| + 1
      ensures Enabled((states + [s])[i], (events + [e])[i]) && (states + [s])[i + 1] == Apply((states + [s])[i], (events + [e])[i])
    {
      if i < |events| {
        assert Enabled(states[i], events[i]) && states[i + 1] == Apply(states[i], events[i]);
      }
    }
  }

  /** One more event at the end of a run. */
  lemma Then(states: seq<State>, events: seq<Event>, e: Event) returns (states': seq<State>, events': seq<Event>)
    requires IsRun(states, events) && |states| > 0 && Enabled(states[|states| - 1], e)
    ensures IsRun(states', events') && |states'| == |states| + 1
    ensures states'[|states| - 1] == states[|states| - 1]
    ensures states'[|states|] == Apply(states[|states| - 1], e)
  {
    hide IsRun, Apply, Enabled;
    ExtendRun(states, events, e);
    states', events' := states + [Apply(states[|states| - 1], e)], events + [e];
  }

  /** A message is being written since time 0. */
  lemma WriteStarted() returns (states: seq<State>, events: seq<Event>)
    ensures IsRun(states, events) && |states| > 0
    ensures var s := states[|states| - 1];
      && s.c.open && |s.c.queue| == 1 && s.c.writing == Some(s.c.queue[0]) && s.now == 0 && s.c.inputBuffer == "" && s.c.reading
      && s.c.output == Timer(At(30), Ready) && s.h.lastRead == 0 && s.h.enqueued == s.c.queue && s.h.written == []
  {
    states, events := [Initial(0)], [];
    assert IsRun(states, events);
    hide IsRun;
    states, events := Then(states, events, Delivery("hi"));
    assert states[1].h.enqueued == states[1].c.queue;
    states, events := Then(states, events, QueueWaitDone);
  }

  /** A heartbeat while something is queued changes nothing but the input side. */
  lemma HeartbeatRead(s: State)
    requires s.c.open && s.c.reading && s.c.inputBuffer == "" && s.c.queue != []
    ensures Enabled(s, ReadDone(true, "\n"))
    ensures var s' := Apply(s, ReadDone(true, "\n"));
      && s'.c.open && s'.c.queue == s.c.queue && s'.c.writing == s.c.writing && s'.c.output == s.c.output && s'.now == s.now
      && s'.h.lastRead == s.now && s'.h.enqueued == s.h.enqueued && s'.h.written == s.h.written
  {
    assert "" + "\n" == "\n" && FirstNewline("\n") == 0;
    assert FirstLine("\n") == "";
    hide FirstLine, AfterLine;
  }

  /** A heartbeat arrives at time 20, while the message is still being written. */
  lemma SlowWrite() returns (states: seq<State>, events: seq<Event>)
    ensures IsRun(states, events) && |states| > 0
    ensures var s := states[|states| - 1];
      && s.c.open && |s.c.queue| == 1 && s.c.writing == Some(s.c.queue[0]) && s.now == 20
      && s.c.output == Timer(At(30), Pending) && s.h.lastRead == 20 && s.h.enqueued == s.c.queue && s.h.written == []
  {
    hide IsRun;
    states, events := WriteStarted();
    states, events := Then(states, events, OutputWaitDone);
    states, events := Then(states, events, Tick(20));
    var s := states[|states| - 1];
    HeartbeatRead(s);
    hide Apply, Enabled;
    states, events := Then(states, events, ReadDone(true, "\n"));
  }

  /**
   The output deadline is not cleared when its write completes: this run stops a
   session although its last write took 25 seconds, nothing waits to be sent, and
   the client was heard from 10 seconds ago.
   */
  lemma IdleOutputIsStopped() returns (states: seq<State>, events: seq<Event>)
    ensures IsRun(states, events) && |states| > 1
    ensures var before, after := states[|states| - 2], states[|states| - 1];
      && before.c.open && before.c.queue == [] && before.c.writing.None? && before.h.written == before.h.enqueued
      && after.h.cause == OutputDeadline(30) && after.h.lastRead == 20 && after.now == 30
  {
    hide IsRun;
    states, events := SlowWrite();
    states, events := Then(states, events, Tick(5));
    states, events := Then(states, events, WriteDone(true));
    states, events := Then(states, events, Tick(5));
    states, events := Then(states, events, OutputWaitDone);
  }
}
