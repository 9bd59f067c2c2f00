/**
 The multi-stage pipeline: one thread per stage, a blocking queue between
 consecutive stages. The model has any number of stages and any per-line stage
 functions; the steps are the regions that hold a queue's mutex, so a run is any
 interleaving of the stage threads.
 */
module Pipeline {

  type Line = string

  /** A stage turns one line into any number of lines. */
  type StageFn = Line -> seq<Line>

  // ---------------------------------------------------------------------------
  // The queue object
  // ---------------------------------------------------------------------------

  /** queue_impl and whether its consumer is blocked in condition_.wait. */
  datatype Queue = Queue(items: seq<Line>, stop: bool, asleep: bool)

  function Pushed(q: Queue, t: Line): Queue {
    Queue(q.items + [t], q.stop, false)
  }

  function StoppedQueue(q: Queue): Queue {
    Queue(q.items, true, false)
  }

  datatype Popped = Blocked | Got(line: Line) | Ended

  class QueueImpl {
    var items: seq<Line>
    var stop: bool
    var asleep: bool

    function Value(): Queue
      reads this
    {
      Queue(items, stop, asleep)
    }

    constructor ()
      ensures Value() == Queue([], false, false)
    {
      items, stop, asleep := [], false, false;
    }

    method NotifyOne()
      modifies this`asleep
      ensures !asleep
    {
      asleep := false;
    }

    method Push(t: Line)
      modifies this
      ensures Value() == Pushed(old(Value()), t)
      ensures items == old(items) + [t] && stop == old(stop) && !asleep
    {
      items := items + [t];
      NotifyOne();
    }

    method Stop()
      modifies this
      ensures Value() == StoppedQueue(old(Value()))
      ensures items == old(items) && stop && !asleep
    {
      stop := true;
      NotifyOne();
    }

    /** One pass through pop: it blocks on an empty open queue, and is called again when it wakes. */
    method Pop() returns (r: Popped)
      modifies this
      ensures r.Got? <==> old(items) != []
      ensures r.Ended? <==> old(items) == [] && old(stop)
      ensures match r
        case Blocked => Value() == old(Value()).(asleep := true)
        case Got(t) => old(items) == [t] + items && Value() == old(Value()).(items := items)
        case Ended => Value() == old(Value())
    {
      if items == [] && !stop {
        asleep := true;
        return Blocked;
      }
      if items != [] {
        r := Got(items[0]);
        items := items[1..];
      } else {
        r := Ended;
      }
    }
  }

  // ---------------------------------------------------------------------------
  // Steps
  // ---------------------------------------------------------------------------

  /**
   Queue `k` lies between stage `k` and stage `k + 1`; stage 0 reads `input` and
   the consumer of the last queue is the writer. `hand[k]` are the lines the
   consumer of queue `k` has still to push into queue `k + 1`.
   */
  datatype State = State(
    input: seq<Line>,
    queues: seq<Queue>,
    hand: seq<seq<Line>>,
    count: nat,                   // the writer's line counter
    out: seq<(nat, Line)>,        // what the writer has printed
    done: bool                    // the writer has returned
  )

  datatype Step =
    | Read                // reader: push one line
    | EndOfInput          // reader: out.stop()
    | Pop(k: nat)         // consumer of queue k takes a line
    | Push(k: nat)        // consumer of queue k pushes a result
    | Sleep(k: nat)       // consumer of queue k blocks
    | Finish(k: nat)      // consumer of queue k: pop returns false, then out.stop()
    | SpuriousWake(k: nat)

  predicate Sized(fs: seq<StageFn>, s: State) {
    |s.queues| == |fs| + 1 && |s.hand| == |fs|
  }

  /** The consumer of queue `k` is about to look into the queue. */
  predicate Looks(s: State, k: nat) {
    k < |s.queues| && !s.queues[k].asleep && (k < |s.hand| ==> s.hand[k] == [])
  }

  predicate Enabled(s: State, a: Step) {
    match a
    case Read => s.queues != [] && s.input != []
    case EndOfInput => s.queues != [] && s.input == [] && !s.queues[0].stop
    case Pop(k) => Looks(s, k) && s.queues[k].items != []
    case Push(k) => k < |s.hand| && k + 1 < |s.queues| && s.hand[k] != []
    case Sleep(k) => Looks(s, k) && s.queues[k].items == [] && !s.queues[k].stop
    case Finish(k) =>
      && Looks(s, k) && s.queues[k].items == [] && s.queues[k].stop
      && (if k + 1 < |s.queues| then !s.queues[k + 1].stop else !s.done)
    case SpuriousWake(k) => k < |s.queues|
  }

  function SetQueue(s: State, k: nat, q: Queue): State
    requires k < |s.queues|
  {
    s.(queues := s.queues[k := q])
  }

  function Apply(fs: seq<StageFn>, s: State, a: Step): State
    requires Sized(fs, s) && Enabled(s, a)
  {
    match a
    case Read => SetQueue(s, 0, Pushed(s.queues[0], s.input[0])).(input := s.input[1..])
    case EndOfInput => SetQueue(s, 0, StoppedQueue(s.queues[0]))
    case Pop(k) =>
      var line := s.queues[k].items[0];
      var s1 := SetQueue(s, k, s.queues[k].(items := s.queues[k].items[1..]));
      if k < |fs| then s1.(hand := s.hand[k := fs[k](line)])
      else s1.(out := s.out + [(s.count, line)], count := s.count + 1)
    case Push(k) =>
      SetQueue(s, k + 1, Pushed(s.queues[k + 1], s.hand[k][0])).(hand := s.hand[k := s.hand[k][1..]])
    case Sleep(k) => SetQueue(s, k, s.queues[k].(asleep := true))
    case Finish(k) =>
      if k + 1 < |s.queues| then SetQueue(s, k + 1, StoppedQueue(s.queues[k + 1])) else s.(done := true)
    case SpuriousWake(k) => SetQueue(s, k, s.queues[k].(asleep := false))
  }

  function Initial(fs: seq<StageFn>, input: seq<Line>): State {
    State(input, seq(|fs| + 1, _ => Queue([], false, false)), seq(|fs|, _ => []), 0, [], false)
  }

  ghost predicate IsRun(fs: seq<StageFn>, input: seq<Line>, states: seq<State>, steps: seq<Step>) {
    && |states| == |steps| + 1
    && states[0] == Initial(fs, input)
    && forall i :: 0 <= i < |steps| ==>
         Sized(fs, states[i]) && Enabled(states[i], steps[i]) && states[i + 1] == Apply(fs, states[i], steps[i])
  }

  // ---------------------------------------------------------------------------
  // What the pipeline computes
  // ---------------------------------------------------------------------------

  function FlatMap(f: StageFn, lines: seq<Line>): seq<Line> {
    if lines == [] then [] else f(lines[0]) + FlatMap(f, lines[1..])
  }

  /** The lines that ever enter queue `k`. */
  function Expected(fs: seq<StageFn>, input: seq<Line>, k: nat): seq<Line>
    requires k <= |fs|
  {
    if k == 0 then input else FlatMap(fs[k - 1], Expected(fs, input, k - 1))
  }

  /** The lines that have still to enter queue `k`. */
  function ToEnter(fs: seq<StageFn>, s: State, k: nat): seq<Line>
    requires Sized(fs, s) && k <= |fs|
    decreases k, 0
  {
    if k == 0 then s.input else s.hand[k - 1] + FlatMap(fs[k - 1], ToLeave(fs, s, k - 1))
  }

  /** The lines that have still to leave queue `k`. */
  function ToLeave(fs: seq<StageFn>, s: State, k: nat): seq<Line>
    requires Sized(fs, s) && k <= |fs|
    decreases k, 1
  {
    s.queues[k].items + ToEnter(fs, s, k)
  }

  function Lines(out: seq<(nat, Line)>): seq<Line> {
    seq(|out|, i requires 0 <= i < |out| => out[i].1)
  }

  // ---------------------------------------------------------------------------
  // Invariant
  // ---------------------------------------------------------------------------

  /** The printed lines and those to come are what the stages make of the input. */
  ghost predicate Determined(fs: seq<StageFn>, input: seq<Line>, s: State)
    requires Sized(fs, s)
  {
    Lines(s.out) + ToLeave(fs, s, |fs|) == Expected(fs, input, |fs|)
  }

  /** A queue is stopped only when its producer has nothing left; a blocked consumer has an empty, open queue. */
  ghost predicate QueueOk(s: State, k: nat)
    requires k < |s.queues| == |s.hand| + 1
  {
    && (s.queues[k].asleep ==> s.queues[k].items == [] && !s.queues[k].stop && (k < |s.hand| ==> s.hand[k] == []))
    && (s.queues[k].stop ==>
          if k == 0 then s.input == []
          else s.queues[k - 1].stop && s.queues[k - 1].items == [] && s.hand[k - 1] == [])
  }

  ghost predicate QueuesOk(s: State)
    requires |s.queues| == |s.hand| + 1
  {
    forall k :: 0 <= k < |s.queues| ==> QueueOk(s, k)
  }

  ghost predicate Numbered(s: State) {
    s.count == |s.out| && forall i :: 0 <= i < |s.out| ==> s.out[i].0 == i
  }

  ghost predicate DoneOk(s: State)
    requires |s.queues| == |s.hand| + 1
  {
    s.done ==> s.queues[|s.hand|].stop && s.queues[|s.hand|].items == []
  }

  ghost predicate Inv(fs: seq<StageFn>, input: seq<Line>, s: State) {
    Sized(fs, s) && QueuesOk(s) && Numbered(s) && DoneOk(s) && Determined(fs, input, s)
  }

  lemma FlatMapCons(f: StageFn, lines: seq<Line>)
    requires lines != []
    ensures FlatMap(f, lines) == f(lines[0]) + FlatMap(f, lines[1..])
  {
  }

  lemma {:induction false} FlatMapConcat(f: StageFn, a: seq<Line>, b: seq<Line>)
    ensures FlatMap(f, a + b) == FlatMap(f, a) + FlatMap(f, b)
  {
    assert FlatMap(f, []) == [];
    hide FlatMap;
    if a == [] {
      assert a + b == b;
    } else {
      FlatMapCons(f, a);
      FlatMapCons(f, a + b);
      FlatMapConcat(f, a[1..], b);
      assert (a + b)[0] == a[0] && (a + b)[1..] == a[1..] + b;
      Associative(f(a[0]), FlatMap(f, a[1..]), FlatMap(f, b));
    }
  }

  lemma Associative(x: seq<Line>, y: seq<Line>, z: seq<Line>)
    ensures x + (y + z) == (x + y) + z
  {
  }

  /** What lies before queue `k` decides what is still to enter it. */
  lemma {:induction false} UpstreamSame(fs: seq<StageFn>, s: State, s': State, k: nat)
    requires Sized(fs, s) && Sized(fs, s') && k <= |fs| && s.input == s'.input
    requires forall j :: 0 <= j < k ==> s'.queues[j].items == s.queues[j].items && s'.hand[j] == s.hand[j]
    ensures ToEnter(fs, s', k) == ToEnter(fs, s, k)
    decreases k
  {
    if k > 0 {
      UpstreamSame(fs, s, s', k - 1);
    }
  }

  /** If the same lines are to leave queue `j`, nothing changes further down. */
  lemma {:induction false} DownstreamSame(fs: seq<StageFn>, s: State, s': State, j: nat, k: nat)
    requires Sized(fs, s) && Sized(fs, s') && j <= k <= |fs| && ToLeave(fs, s', j) == ToLeave(fs, s, j)
    requires forall i :: j < i <= k ==> s'.queues[i].items == s.queues[i].items
    requires forall i :: j <= i < k ==> s'.hand[i] == s.hand[i]
    ensures ToLeave(fs, s', k) == ToLeave(fs, s, k)
    decreases k
  {
    if k > j {
      DownstreamSame(fs, s, s', j, k - 1);
    }
  }

  /** A push moves a line from "to enter" into the queue. */
  lemma PushMoves(q: Queue, line: Line, rest: seq<Line>)
    ensures q.items + ([line] + rest) == Pushed(q, line).items + rest
  {
  }

  lemma ReadKeeps(fs: seq<StageFn>, s: State, i: nat)
    requires Sized(fs, s) && Enabled(s, Read) && i <= |fs|
    ensures ToLeave(fs, Apply(fs, s, Read), i) == ToLeave(fs, s, i)
  {
    var s' := Apply(fs, s, Read);
    assert s.input == [s.input[0]] + s.input[1..];
    PushMoves(s.queues[0], s.input[0], s.input[1..]);
    DownstreamSame(fs, s, s', 0, i);
  }

  /** Popping hands the transformed line on: the next queue sees the same lines to come. */
  lemma PopKeeps(fs: seq<StageFn>, s: State, k: nat, i: nat)
    requires Sized(fs, s) && Enabled(s, Pop(k)) && k < i <= |fs|
    ensures ToLeave(fs, Apply(fs, s, Pop(k)), i) == ToLeave(fs, s, i)
  {
    var s' := Apply(fs, s, Pop(k));
    var items := s.queues[k].items;
    UpstreamSame(fs, s, s', k);
    var up := ToEnter(fs, s, k);
    assert items + up == [items[0]] + (items[1..] + up);
    assert FlatMap(fs[k], [items[0]] + (items[1..] + up)) == fs[k](items[0]) + FlatMap(fs[k], items[1..] + up) by {
      assert ([items[0]] + (items[1..] + up))[1..] == items[1..] + up;
    }
    assert ToEnter(fs, s', k + 1) == fs[k](items[0]) + FlatMap(fs[k], items[1..] + up);
    assert ToEnter(fs, s, k + 1) == [] + FlatMap(fs[k], items + up);
    assert ToLeave(fs, s', k + 1) == ToLeave(fs, s, k + 1);
    DownstreamSame(fs, s, s', k + 1, i);
  }

  lemma WriteKeeps(fs: seq<StageFn>, s: State)
    requires Sized(fs, s) && Enabled(s, Pop(|fs|))
    ensures var s' := Apply(fs, s, Pop(|fs|));
      Lines(s'.out) + ToLeave(fs, s', |fs|) == Lines(s.out) + ToLeave(fs, s, |fs|)
  {
    var k := |fs|;
    var s' := Apply(fs, s, Pop(k));
    UpstreamSame(fs, s, s', k);
    var items, up := s.queues[k].items, ToEnter(fs, s, k);
    hide ToEnter, ToLeave;
    assert Lines(s'.out) == Lines(s.out) + [items[0]];
    WriteMoves(Lines(s.out), items, up);
    assert ToLeave(fs, s, k) == items + up && ToLeave(fs, s', k) == items[1..] + up by {
      LeaveIs(fs, s, k);
      LeaveIs(fs, s', k);
    }
  }

  lemma LeaveIs(fs: seq<StageFn>, s: State, k: nat)
    requires Sized(fs, s) && k <= |fs|
    ensures ToLeave(fs, s, k) == s.queues[k].items + ToEnter(fs, s, k)
  {
  }

  lemma WriteMoves(out: seq<Line>, items: seq<Line>, up: seq<Line>)
    requires items != []
    ensures out + [items[0]] + (items[1..] + up) == out + (items + up)
  {
  }

  lemma PushKeeps(fs: seq<StageFn>, s: State, k: nat, i: nat)
    requires Sized(fs, s) && Enabled(s, Push(k)) && k < i <= |fs|
    ensures ToLeave(fs, Apply(fs, s, Push(k)), i) == ToLeave(fs, s, i)
  {
    var s' := Apply(fs, s, Push(k));
    UpstreamSame(fs, s, s', k);
    var h, up := s.hand[k], FlatMap(fs[k], ToLeave(fs, s, k));
    assert ToLeave(fs, s', k) == ToLeave(fs, s, k);
    assert h + up == [h[0]] + (h[1..] + up);
    PushMoves(s.queues[k + 1], h[0], h[1..] + up);
    assert ToLeave(fs, s', k + 1) == ToLeave(fs, s, k + 1);
    DownstreamSame(fs, s, s', k + 1, i);
  }

  lemma KeepDetermined(fs: seq<StageFn>, input: seq<Line>, s: State, a: Step)
    requires Sized(fs, s) && Determined(fs, input, s) && Enabled(s, a)
    ensures Sized(fs, Apply(fs, s, a)) && Determined(fs, input, Apply(fs, s, a))
  {
    hide Expected, Lines, ToLeave, ToEnter;
    match a
    case Read => ReadKeeps(fs, s, |fs|);
    case Pop(k) =>
      if k < |fs| {
        PopKeeps(fs, s, k, |fs|);
      } else {
        WriteKeeps(fs, s);
      }
    case Push(k) => PushKeeps(fs, s, k, |fs|);
    case _ => OtherToLeave(fs, s, a, |fs|);
  }

  /** Steps that touch one queue only keep queue `k` in order. */
  lemma KeepQueueSimple(fs: seq<StageFn>, s: State, a: Step, k: nat)
    requires Sized(fs, s) && Enabled(s, a) && k <= |fs| && QueueOk(s, k) && (k > 0 ==> QueueOk(s, k - 1))
    requires a.Read? || a.EndOfInput? || a.Sleep? || a.SpuriousWake? || a.Finish?
    ensures Sized(fs, Apply(fs, s, a)) && QueueOk(Apply(fs, s, a), k)
  {
  }

  lemma KeepQueuePop(fs: seq<StageFn>, s: State, j: nat, k: nat)
    requires Sized(fs, s) && Enabled(s, Pop(j)) && k <= |fs| && QueueOk(s, k) && (k > 0 ==> QueueOk(s, k - 1))
    ensures Sized(fs, Apply(fs, s, Pop(j))) && QueueOk(Apply(fs, s, Pop(j)), k)
  {
  }

  lemma KeepQueuePush(fs: seq<StageFn>, s: State, j: nat, k: nat)
    requires Sized(fs, s) && Enabled(s, Push(j)) && k <= |fs| && QueueOk(s, k) && (k > 0 ==> QueueOk(s, k - 1))
    ensures Sized(fs, Apply(fs, s, Push(j))) && QueueOk(Apply(fs, s, Push(j)), k)
  {
  }

  lemma KeepQueue(fs: seq<StageFn>, s: State, a: Step, k: nat)
    requires Sized(fs, s) && Enabled(s, a) && k <= |fs| && QueueOk(s, k) && (k > 0 ==> QueueOk(s, k - 1))
    ensures Sized(fs, Apply(fs, s, a)) && QueueOk(Apply(fs, s, a), k)
  {
    hide QueueOk, Enabled, Apply;
    if a.Pop? {
      KeepQueuePop(fs, s, a.k, k);
    } else if a.Push? {
      KeepQueuePush(fs, s, a.k, k);
    } else {
      KeepQueueSimple(fs, s, a, k);
    }
  }

  lemma KeepQueues(fs: seq<StageFn>, s: State, a: Step)
    requires Sized(fs, s) && QueuesOk(s) && DoneOk(s) && Enabled(s, a)
    ensures var s' := Apply(fs, s, a); Sized(fs, s') && QueuesOk(s') && DoneOk(s')
  {
    hide QueueOk;
    var s' := Apply(fs, s, a);
    forall k | 0 <= k < |s'.queues|
      ensures QueueOk(s', k)
    {
      KeepQueue(fs, s, a, k);
    }
    KeepDone(fs, s, a);
  }

  lemma KeepDone(fs: seq<StageFn>, s: State, a: Step)
    requires Sized(fs, s) && DoneOk(s) && QueueOk(s, |fs|) && Enabled(s, a)
    ensures Sized(fs, Apply(fs, s, a)) && DoneOk(Apply(fs, s, a))
  {
  }

  lemma KeepInv(fs: seq<StageFn>, input: seq<Line>, s: State, a: Step)
    requires Inv(fs, input, s) && Enabled(s, a)
    ensures Inv(fs, input, Apply(fs, s, a))
  {
    hide Determined, QueuesOk, DoneOk;
    KeepDetermined(fs, input, s, a);
    KeepQueues(fs, s, a);
  }

  /** At the start everything the stages make of the input is still to leave each queue. */
  lemma {:induction false} InitialDetermined(fs: seq<StageFn>, input: seq<Line>, k: nat)
    requires k <= |fs|
    ensures ToLeave(fs, Initial(fs, input), k) == Expected(fs, input, k)
  {
    if k > 0 {
      InitialDetermined(fs, input, k - 1);
    }
  }

  lemma {:induction false} RunInv(fs: seq<StageFn>, input: seq<Line>, states: seq<State>, steps: seq<Step>, i: nat)
    requires IsRun(fs, input, states, steps) && i < |states|
    ensures Inv(fs, input, states[i])
  {
    if i == 0 {
      InitialDetermined(fs, input, |fs|);
      hide Expected, ToLeave;
      assert Lines([]) == [];
    } else {
      RunInv(fs, input, states, steps, i - 1);
      assert Sized(fs, states[i - 1]) && Enabled(states[i - 1], steps[i - 1])
          && states[(i - 1) + 1] == Apply(fs, states[i - 1], steps[i - 1]);
      hide Inv, Apply, IsRun, Enabled;
      KeepInv(fs, input, states[i - 1], steps[i - 1]);
    }
  }

  // ---------------------------------------------------------------------------
  // Theorems
  // ---------------------------------------------------------------------------

  /** A stopped queue gets nothing more: all that is to leave it is inside it. */
  lemma {:induction false} StoppedMeansDrained(fs: seq<StageFn>, s: State, k: nat)
    requires Sized(fs, s) && QueuesOk(s) && k <= |fs| && s.queues[k].stop
    ensures ToEnter(fs, s, k) == []
  {
    assert QueueOk(s, k);
    if k > 0 {
      StoppedMeansDrained(fs, s, k - 1);
      assert ToLeave(fs, s, k - 1) == [];
    }
  }

  lemma FinishMeansDrained(fs: seq<StageFn>, s: State, k: nat)
    requires Sized(fs, s) && QueuesOk(s) && Enabled(s, Finish(k))
    ensures k <= |fs| && ToLeave(fs, s, k) == []
  {
    hide QueuesOk, ToEnter;
    StoppedMeansDrained(fs, s, k);
    LeaveIs(fs, s, k);
  }

  /** pop returns false only after everything upstream has finished and the queue is drained. */
  lemma PopFailsOnlyAtTheEnd(fs: seq<StageFn>, input: seq<Line>, states: seq<State>, steps: seq<Step>, i: nat)
    requires IsRun(fs, input, states, steps) && i < |steps| && steps[i].Finish?
    ensures Inv(fs, input, states[i]) && steps[i].k <= |fs| && ToLeave(fs, states[i], steps[i].k) == []
  {
    hide Determined, QueuesOk, ToLeave, ToEnter, Enabled, Apply, Numbered, DoneOk;
    RunInv(fs, input, states, steps, i);
    assert Enabled(states[i], steps[i]);
    hide IsRun;
    FinishMeansDrained(fs, states[i], steps[i].k);
  }

  /** The output is always a prefix of what the stages make of the input, numbered from 0, and all of it at the end. */
  lemma OutputIsDetermined(fs: seq<StageFn>, input: seq<Line>, states: seq<State>, steps: seq<Step>, i: nat)
    requires IsRun(fs, input, states, steps) && i < |states|
    ensures Lines(states[i].out) <= Expected(fs, input, |fs|)
    ensures states[i].done ==> Lines(states[i].out) == Expected(fs, input, |fs|)
    ensures forall j :: 0 <= j < |states[i].out| ==> states[i].out[j].0 == j
  {
    RunInv(fs, input, states, steps, i);
    hide IsRun, Expected, Lines;
    if states[i].done {
      StoppedMeansDrained(fs, states[i], |fs|);
    }
  }

  /** No consumer is blocked on a queue that holds a line or has been stopped. */
  lemma NoMissedNotification(fs: seq<StageFn>, input: seq<Line>, states: seq<State>, steps: seq<Step>, i: nat, k: nat)
    requires IsRun(fs, input, states, steps) && i < |states| && k <= |fs|
    ensures |states[i].queues| == |fs| + 1
    ensures states[i].queues[k].asleep ==> states[i].queues[k].items == [] && !states[i].queues[k].stop
  {
    RunInv(fs, input, states, steps, i);
    hide IsRun, Determined;
    assert QueueOk(states[i], k);
  }

  predicate Productive(a: Step) {
    !a.Sleep? && !a.SpuriousWake?
  }

  /** If the stages up to queue `k` cannot go on, that queue is stopped. */
  lemma {:induction false} StuckMeansStopped(fs: seq<StageFn>, s: State, k: nat)
    requires Sized(fs, s) && QueuesOk(s) && k <= |fs| && forall a: Step :: Productive(a) ==> !Enabled(s, a)
    ensures s.queues[k].stop
  {
    if k == 0 {
      assert !Enabled(s, Read) && !Enabled(s, EndOfInput);
    } else {
      StuckMeansStopped(fs, s, k - 1);
      assert QueueOk(s, k - 1);
      assert !Enabled(s, Push(k - 1)) && !Enabled(s, Pop(k - 1)) && !Enabled(s, Finish(k - 1));
    }
  }

  /** Until the writer has returned, some stage can do something useful. */
  lemma NeverDeadlocks(fs: seq<StageFn>, input: seq<Line>, states: seq<State>, steps: seq<Step>, i: nat)
    requires IsRun(fs, input, states, steps) && i < |states| && !states[i].done
    ensures exists a: Step :: Productive(a) && Enabled(states[i], a)
  {
    RunInv(fs, input, states, steps, i);
    hide IsRun, Determined;
    var s := states[i];
    assert QueueOk(s, |fs|);
    if Enabled(s, Pop(|fs|)) {
      assert Productive(Pop(|fs|));
    } else if Enabled(s, Finish(|fs|)) {
      assert Productive(Finish(|fs|));
    } else if forall a: Step :: Productive(a) ==> !Enabled(s, a) {
      StuckMeansStopped(fs, s, |fs|);
      assert false;
    }
  }

  // ---------------------------------------------------------------------------
  // The pipeline ends
  // ---------------------------------------------------------------------------

  /** Pushes into queue `i` and pops from it that are still to come, and its stop. */
  function Share(fs: seq<StageFn>, s: State, i: nat): nat
    requires Sized(fs, s) && i <= |fs|
  {
    |ToEnter(fs, s, i)| + |ToLeave(fs, s, i)| + if s.queues[i].stop then 0 else 1
  }

  function Load(fs: seq<StageFn>, s: State, k: nat): nat
    requires Sized(fs, s) && k <= |fs|
  {
    Share(fs, s, k) + if k == 0 then 0 else Load(fs, s, k - 1)
  }

  function WorkLeft(fs: seq<StageFn>, s: State): nat
    requires Sized(fs, s)
  {
    Load(fs, s, |fs|) + if s.done then 0 else 1
  }

  lemma PopToLeave(fs: seq<StageFn>, s: State, k: nat, i: nat)
    requires Sized(fs, s) && Enabled(s, Pop(k)) && i <= |fs|
    ensures Sized(fs, Apply(fs, s, Pop(k)))
    ensures |ToLeave(fs, Apply(fs, s, Pop(k)), i)| == |ToLeave(fs, s, i)| - if k == i then 1 else 0
  {
    var s' := Apply(fs, s, Pop(k));
    if i <= k {
      UpstreamSame(fs, s, s', i);
      LeaveIs(fs, s, i);
      LeaveIs(fs, s', i);
      hide ToLeave, ToEnter;
    } else {
      PopKeeps(fs, s, k, i);
    }
  }

  lemma PushToLeave(fs: seq<StageFn>, s: State, k: nat, i: nat)
    requires Sized(fs, s) && Enabled(s, Push(k)) && i <= |fs|
    ensures Sized(fs, Apply(fs, s, Push(k)))
    ensures |ToLeave(fs, Apply(fs, s, Push(k)), i)| == |ToLeave(fs, s, i)|
  {
    var s' := Apply(fs, s, Push(k));
    if i <= k {
      UpstreamSame(fs, s, s', i);
      LeaveIs(fs, s, i);
      LeaveIs(fs, s', i);
      hide ToLeave, ToEnter;
    } else {
      PushKeeps(fs, s, k, i);
    }
  }

  /** Steps that move no line leave what is to leave each queue alone. */
  lemma OtherToLeave(fs: seq<StageFn>, s: State, a: Step, i: nat)
    requires Sized(fs, s) && Enabled(s, a) && i <= |fs| && !a.Read? && !a.Pop? && !a.Push?
    ensures Sized(fs, Apply(fs, s, a)) && ToLeave(fs, Apply(fs, s, a), i) == ToLeave(fs, s, i)
  {
    var s' := Apply(fs, s, a);
    UpstreamSame(fs, s, s', i);
    LeaveIs(fs, s, i);
    LeaveIs(fs, s', i);
    hide ToLeave, ToEnter;
  }

  /** What a productive step does to queue `i`: the lines to leave it shrink only by a pop from it. */
  lemma StepToLeave(fs: seq<StageFn>, s: State, a: Step, i: nat)
    requires Sized(fs, s) && Enabled(s, a) && i <= |fs|
    ensures Sized(fs, Apply(fs, s, a))
    ensures |ToLeave(fs, Apply(fs, s, a), i)| == |ToLeave(fs, s, i)| - if a == Pop(i) then 1 else 0
  {
    hide ToLeave, ToEnter;
    match a
    case Read => ReadKeeps(fs, s, i);
    case Pop(k) => PopToLeave(fs, s, k, i);
    case Push(k) => PushToLeave(fs, s, k, i);
    case _ => OtherToLeave(fs, s, a, i);
  }

  /** The queue whose share of the work a productive step lowers. */
  function Lowered(a: Step): nat {
    match a
    case Read => 0
    case EndOfInput => 0
    case Pop(k) => k
    case Push(k) => k + 1
    case Sleep(k) => 0
    case Finish(k) => k + 1
    case SpuriousWake(k) => 0
  }

  lemma StepShare(fs: seq<StageFn>, s: State, a: Step, i: nat)
    requires Sized(fs, s) && Enabled(s, a) && Productive(a) && i <= |fs|
    ensures Sized(fs, Apply(fs, s, a))
    ensures Share(fs, Apply(fs, s, a), i) <= Share(fs, s, i)
    ensures i == Lowered(a) ==> Share(fs, Apply(fs, s, a), i) < Share(fs, s, i)
  {
    hide ToLeave, ToEnter;
    StepToLeave(fs, s, a, i);
    LeaveIs(fs, s, i);
    LeaveIs(fs, Apply(fs, s, a), i);
  }

  lemma {:induction false} LoadDescends(fs: seq<StageFn>, s: State, a: Step, k: nat)
    requires Sized(fs, s) && Enabled(s, a) && Productive(a) && k <= |fs|
    ensures Sized(fs, Apply(fs, s, a)) && Load(fs, Apply(fs, s, a), k) <= Load(fs, s, k)
    ensures Lowered(a) <= k ==> Load(fs, Apply(fs, s, a), k) < Load(fs, s, k)
  {
    hide Share, Apply, Enabled, Lowered;
    StepShare(fs, s, a, k);
    if k > 0 {
      LoadDescends(fs, s, a, k - 1);
    }
  }

  /** Every step other than blocking and spurious wake-ups brings the end of the pipeline closer. */
  lemma ProductiveStepsRunOut(fs: seq<StageFn>, s: State, a: Step)
    requires Sized(fs, s) && Enabled(s, a) && Productive(a)
    ensures Sized(fs, Apply(fs, s, a)) && WorkLeft(fs, Apply(fs, s, a)) < WorkLeft(fs, s)
  {
    LoadDescends(fs, s, a, |fs|);
    hide Load;
  }

  function ProductiveIn(steps: seq<Step>): nat {
    if steps == [] then 0 else ProductiveIn(steps[..|steps| - 1]) + if Productive(steps[|steps| - 1]) then 1 else 0
  }

  lemma ShareSame(fs: seq<StageFn>, s: State, a: Step, k: nat)
    requires Sized(fs, s) && Enabled(s, a) && !Productive(a) && k <= |fs|
    ensures Sized(fs, Apply(fs, s, a)) && Share(fs, Apply(fs, s, a), k) == Share(fs, s, k)
  {
    hide ToLeave, ToEnter;
    UpstreamSame(fs, s, Apply(fs, s, a), k);
    OtherToLeave(fs, s, a, k);
  }

  lemma {:induction false} LoadSame(fs: seq<StageFn>, s: State, a: Step, k: nat)
    requires Sized(fs, s) && Enabled(s, a) && !Productive(a) && k <= |fs|
    ensures Sized(fs, Apply(fs, s, a)) && Load(fs, Apply(fs, s, a), k) == Load(fs, s, k)
  {
    ShareSame(fs, s, a, k);
    hide Share, Apply, Enabled;
    if k > 0 {
      LoadSame(fs, s, a, k - 1);
    }
  }

  /** Blocking and waking leave the work as it is. */
  lemma IdleStepsKeepWork(fs: seq<StageFn>, s: State, a: Step)
    requires Sized(fs, s) && Enabled(s, a) && !Productive(a)
    ensures Sized(fs, Apply(fs, s, a)) && WorkLeft(fs, Apply(fs, s, a)) == WorkLeft(fs, s)
  {
    LoadSame(fs, s, a, |fs|);
    hide Load;
  }

  /** No run has more productive steps than there is work at its start. */
  lemma {:induction false} ProductiveStepsAreBounded(fs: seq<StageFn>, input: seq<Line>, states: seq<State>, steps: seq<Step>, i: nat)
    requires IsRun(fs, input, states, steps) && i < |states|
    ensures Sized(fs, states[0]) && Sized(fs, states[i])
    ensures ProductiveIn(steps[..i]) + WorkLeft(fs, states[i]) <= WorkLeft(fs, states[0])
  {
    hide WorkLeft, Apply, Enabled, Productive;
    if i > 0 {
      ProductiveStepsAreBounded(fs, input, states, steps, i - 1);
      var s, a := states[i - 1], steps[i - 1];
      assert Sized(fs, s) && Enabled(s, a) && states[(i - 1) + 1] == Apply(fs, s, a);
      assert steps[..i][..i - 1] == steps[..i - 1];
      if Productive(a) {
        ProductiveStepsRunOut(fs, s, a);
      } else {
        IdleStepsKeepWork(fs, s, a);
      }
    }
  }

  // ---------------------------------------------------------------------------
  // The stages of the program
  // ---------------------------------------------------------------------------

  function ToUpper(c: char): char {
    if 'a' <= c <= 'z' then c - 'a' + 'A' else c
  }

  function UpperLine(line: Line): Line {
    seq(|line|, i requires 0 <= i < |line| => ToUpper(line[i]))
  }

  function Filter(line: Line): seq<Line> {
    if |line| > 5 then [line] else []
  }

  function Upper(line: Line): seq<Line> {
    [UpperLine(line)]
  }

  /** Line `u` is line `l` in upper case: small letters become the capitals in the same place of the alphabet. */
  predicate IsUpperOf(l: Line, u: Line) {
    && |u| == |l|
    && forall i :: 0 <= i < |l| ==>
         if 'a' <= l[i] <= 'z' then 'A' <= u[i] <= 'Z' && u[i] - 'A' == l[i] - 'a' else u[i] == l[i]
  }

  lemma UpperLineIs(line: Line)
    ensures IsUpperOf(line, UpperLine(line))
  {
  }

  /** The lines of more than 5 characters, in input order. */
  function LongLines(input: seq<Line>): seq<Line> {
    if input == [] then [] else (if |input[0]| > 5 then [input[0]] else []) + LongLines(input[1..])
  }

  /** filter and upper turn the input into its long lines, each in upper case. */
  lemma {:induction false} FilterThenUpper(input: seq<Line>)
    ensures FlatMap(Filter, input) == LongLines(input)
    ensures var out, long := FlatMap(Upper, FlatMap(Filter, input)), LongLines(input);
      |out| == |long| && forall j :: 0 <= j < |out| ==> IsUpperOf(long[j], out[j])
  {
    hide IsUpperOf, UpperLine;
    if input != [] {
      FilterThenUpper(input[1..]);
      FlatMapConcat(Upper, Filter(input[0]), FlatMap(Filter, input[1..]));
      UpperOfOne(input[0]);
    }
  }

  lemma UpperOfOne(line: Line)
    ensures FlatMap(Upper, Filter(line)) == if |line| > 5 then [UpperLine(line)] else []
    ensures IsUpperOf(line, UpperLine(line))
  {
    UpperLineIs(line);
    if |line| > 5 {
      FlatMapCons(Upper, [line]);
      assert [line][1..] == [] && FlatMap(Upper, []) == [];
    }
  }

  /** reader, filter, upper, writer: the writer prints the long lines in upper case, in input order, and all of them at the end. */
  lemma ProgramOutput(input: seq<Line>, states: seq<State>, steps: seq<Step>, i: nat)
    requires IsRun([Filter, Upper], input, states, steps) && i < |states|
    ensures var out, long := Lines(states[i].out), LongLines(input);
      && |out| <= |long| && (states[i].done ==> |out| == |long|)
      && forall j :: 0 <= j < |out| ==> IsUpperOf(long[j], out[j])
  {
    var fs: seq<StageFn> := [Filter, Upper];
    OutputIsDetermined(fs, input, states, steps, i);
    hide IsRun, Lines, IsUpperOf;
    assert Expected(fs, input, 2) == FlatMap(fs[1], Expected(fs, input, 1));
    assert Expected(fs, input, 1) == FlatMap(fs[0], Expected(fs, input, 0));
    FilterThenUpper(input);
  }
}
