/**
 The fork/join thread pool: one mutex, one condition variable shared by pool
 workers and joining threads, one FIFO queue, a work count per group and a
 pool-wide use count.

 The protocol is a step system with one step per region that holds the mutex.
 A thread is a stack of frames: a joining thread borrows queued functions, so a
 function frame can sit on a join frame that sits on another function frame.
 */
module ForkJoinPool {

  /** A submitted function: its submission number and its group. */
  datatype Fn = Fn(id: nat, group: nat)

  datatype Frame =
    | Loop                      // a worker's dequeue loop
    | Client                    // code of a thread that is not a worker
    | Exec(fn: Fn, stamp: nat)  // a running function and when it started
    | Join(group: nat)          // the wait loop of fork_executor::join

  /** What the mutex guards; `count[g]` is the work count shared by group `g`. */
  datatype Pool = Pool(queue: seq<Fn>, useCount: nat, count: seq<nat>)

  datatype State = State(
    pool: Pool,
    workers: nat,                // thread_count_; threads 0..workers are workers
    stacks: seq<seq<Frame>>,     // one frame stack per thread
    awake: seq<bool>,            // false: blocked in condition_.wait
    stopped: bool,               // stop_threads has run
    explicitWork: seq<nat>,      // on_work_started minus on_work_finished, per group
    owner: seq<nat>,             // start stamp of the function that created the group, 0 for clients
    clock: nat,                  // the latest start stamp
    submitted: seq<Fn>,
    finished: seq<Fn>
  )

  // ---------------------------------------------------------------------------
  // The bookkeeping done under the mutex
  // ---------------------------------------------------------------------------

  function WorkStarted(p: Pool, g: nat): Pool
    requires g < |p.count|
  {
    p.(count := p.count[g := p.count[g] + 1],
       useCount := if p.count[g] + 1 == 1 then p.useCount + 1 else p.useCount)
  }

  predicate CanFinish(p: Pool, g: nat) {
    g < |p.count| && p.count[g] > 0 && (p.count[g] == 1 ==> p.useCount > 0)
  }

  function WorkFinished(p: Pool, g: nat): Pool
    requires CanFinish(p, g)
  {
    p.(count := p.count[g := p.count[g] - 1],
       useCount := if p.count[g] - 1 == 0 then p.useCount - 1 else p.useCount)
  }

  function Enqueued(p: Pool, f: Fn): Pool
    requires f.group < |p.count|
  {
    WorkStarted(p.(queue := p.queue + [f]), f.group)
  }

  /** do_dispatch runs the function inline when the queue is this long. */
  predicate Loaded(p: Pool, workers: nat) {
    |p.queue| > workers * 16
  }

  /** The pool after its oldest function has been taken. */
  function Dequeued(p: Pool): Pool
    requires p.queue != []
  {
    p.(queue := p.queue[1..])
  }

  datatype Taken = Nothing | Taken(fn: Fn)

  /** notify_one wakes some blocked thread if there is one. */
  predicate CanPick(awake: seq<bool>, w: nat) {
    w < |awake| && (awake[w] ==> forall u :: 0 <= u < |awake| ==> awake[u])
  }

  function AllAwake(n: nat): (r: seq<bool>)
    ensures |r| == n && forall i :: 0 <= i < n ==> r[i]
  {
    seq(n, _ => true)
  }

  /**
   The fields of fork_join_pool; each method is one region that holds the mutex.
   `awake` is the condition variable: the threads that are not blocked in it.
   */
  class PoolObject {
    var queue: seq<Fn>
    var useCount: nat
    var count: seq<nat>
    var awake: seq<bool>
    const threadCount: nat

    constructor (threadCount: nat, threads: nat)
      ensures Value() == Pool([], 1, []) && this.threadCount == threadCount && awake == AllAwake(threads)
    {
      queue, useCount, count, awake := [], 1, [], AllAwake(threads);
      this.threadCount := threadCount;
    }

    function Value(): Pool
      reads this
    {
      Pool(queue, useCount, count)
    }

    method DoWorkStarted(g: nat)
      requires g < |count|
      modifies this`count, this`useCount
      ensures Value() == WorkStarted(old(Value()), g)
    {
      count := count[g := count[g] + 1];
      if count[g] == 1 {
        useCount := useCount + 1;
      }
    }

    method NotifyOne(w: nat)
      requires CanPick(awake, w)
      modifies this`awake
      ensures awake == old(awake)[w := true]
    {
      awake := awake[w := true];
    }

    method NotifyAll()
      modifies this`awake
      ensures awake == AllAwake(|old(awake)|)
    {
      awake := AllAwake(|awake|);
    }

    method DoWorkFinished(g: nat)
      requires CanFinish(Value(), g)
      modifies this
      ensures Value() == WorkFinished(old(Value()), g)
      ensures awake == if count[g] == 0 then AllAwake(|old(awake)|) else old(awake)
    {
      count := count[g := count[g] - 1];
      if count[g] == 0 {
        useCount := useCount - 1;
        NotifyAll();
      }
    }

    /** The part of execute_next that holds the mutex. */
    method TakeNext() returns (r: Taken)
      modifies this`queue
      ensures r.Nothing? <==> old(queue) == []
      ensures r.Nothing? ==> Value() == old(Value())
      ensures r.Taken? ==> old(queue) == [r.fn] + queue && Value() == Dequeued(old(Value()))
    {
      if queue == [] {
        return Nothing;
      }
      r := Taken(queue[0]);
      queue := queue[1..];
    }

    /** `w` is the thread the notification picks. */
    method DoPost(f: Fn, w: nat)
      requires f.group < |count| && CanPick(awake, w)
      modifies this
      ensures Value() == Enqueued(old(Value()), f) && awake == old(awake)[w := true]
      ensures queue == old(queue) + [f] && count == old(count)[f.group := old(count[f.group]) + 1]
    {
      queue := queue + [f];
      DoWorkStarted(f.group);
      NotifyOne(w);
    }

    /** Returns whether the caller must run the function itself. */
    method DoDispatch(f: Fn, w: nat) returns (inline: bool)
      requires f.group < |count| && CanPick(awake, w)
      modifies this
      ensures inline <==> |old(queue)| > 16 * threadCount
      ensures queue == (if inline then old(queue) else old(queue) + [f]) && count == old(count)[f.group := old(count[f.group]) + 1]
      ensures Value() == if inline then WorkStarted(old(Value()), f.group) else Enqueued(old(Value()), f)
      ensures awake == if inline then old(awake) else old(awake)[w := true]
    {
      inline := |queue| > threadCount * 16;
      if inline {
        DoWorkStarted(f.group);
      } else {
        queue := queue + [f];
        DoWorkStarted(f.group);
        NotifyOne(w);
      }
    }

    method StopThreads()
      requires useCount > 0
      modifies this
      ensures Value() == old(Value()).(useCount := old(useCount) - 1) && awake == AllAwake(|old(awake)|)
    {
      useCount := useCount - 1;
      NotifyAll();
    }
  }

  // ---------------------------------------------------------------------------
  // Steps
  // ---------------------------------------------------------------------------

  /** `t` is the thread that takes the step; `w` is the thread notify_one picks. */
  datatype Action =
    | Exit(t: nat)
    | Take(t: nat)
    | Sleep(t: nat)
    | JoinReturn(t: nat)
    | StartJoin(t: nat, g: nat)
    | Return(t: nat)
    | NewGroup(t: nat)
    | Post(t: nat, g: nat, w: nat)
    | Dispatch(t: nat, g: nat, w: nat)
    | BeginWork(t: nat, g: nat)
    | EndWork(t: nat, g: nat)
    | Stop(t: nat)
    | SpuriousWake(t: nat)

  function Top(s: State, t: nat): Frame
    requires t < |s.stacks| && s.stacks[t] != []
  {
    s.stacks[t][|s.stacks[t]| - 1]
  }

  predicate Active(s: State, t: nat) {
    t < |s.stacks| && t < |s.awake| && s.awake[t] && s.stacks[t] != []
  }

  /** The thread runs user code: a function body or client code. */
  predicate InCode(s: State, t: nat) {
    Active(s, t) && (Top(s, t).Exec? || Top(s, t).Client?)
  }

  /** New work after stop_threads comes only from inside running functions. */
  predicate MaySubmit(s: State, t: nat, g: nat) {
    InCode(s, t) && g < |s.pool.count| && g < |s.explicitWork| && (s.stopped ==> Top(s, t).Exec?)
  }

  /** The loop conditions of the workers and of join. */
  predicate LoopHolds(pool: Pool, top: Frame) {
    match top
    case Loop => pool.useCount > 0
    case Join(g) => g < |pool.count| && pool.count[g] > 0
    case _ => false
  }

  /** The thread is at the head of a worker or join loop whose condition holds. */
  predicate Looping(s: State, t: nat) {
    Active(s, t) && LoopHolds(s.pool, Top(s, t))
  }

  predicate Enabled(s: State, a: Action) {
    match a
    case Exit(t) => Active(s, t) && Top(s, t).Loop? && s.pool.useCount == 0
    case Take(t) => Looping(s, t) && s.pool.queue != []
    case Sleep(t) => Looping(s, t) && s.pool.queue == []
    case JoinReturn(t) =>
      Active(s, t) && Top(s, t).Join? && Top(s, t).group < |s.pool.count| && s.pool.count[Top(s, t).group] == 0
    case StartJoin(t, g) => InCode(s, t) && g < |s.pool.count|
    case Return(t) => Active(s, t) && Top(s, t).Exec? && CanFinish(s.pool, Top(s, t).fn.group)
    case NewGroup(t) => InCode(s, t)
    case Post(t, g, w) => MaySubmit(s, t, g) && CanPick(s.awake, w)
    case Dispatch(t, g, w) => MaySubmit(s, t, g) && CanPick(s.awake, w)
    case BeginWork(t, g) => MaySubmit(s, t, g)
    case EndWork(t, g) => InCode(s, t) && g < |s.explicitWork| && s.explicitWork[g] > 0 && CanFinish(s.pool, g)
    case Stop(t) => InCode(s, t) && Top(s, t).Client? && !s.stopped && s.pool.useCount > 0
    case SpuriousWake(t) => t < |s.awake| && t < |s.stacks| && s.stacks[t] != []
  }

  /** do_work_finished calls notify_all when the group runs out of work. */
  function AwakeAfterFinish(s: State, g: nat): seq<bool>
    requires g < |s.pool.count|
  {
    if s.pool.count[g] == 1 then AllAwake(|s.awake|) else s.awake
  }

  function PushFrame(s: State, t: nat, f: Frame): State
    requires t < |s.stacks|
  {
    s.(stacks := s.stacks[t := s.stacks[t] + [f]])
  }

  function PopFrame(s: State, t: nat): State
    requires t < |s.stacks| && s.stacks[t] != []
  {
    s.(stacks := s.stacks[t := s.stacks[t][..|s.stacks[t]| - 1]])
  }

  function Stamp(f: Frame): nat {
    if f.Exec? then f.stamp else 0
  }

  function Submit(s: State, g: nat, w: nat): State
    requires g < |s.pool.count| && w < |s.awake|
  {
    var f := Fn(|s.submitted|, g);
    s.(pool := Enqueued(s.pool, f), submitted := s.submitted + [f], awake := s.awake[w := true])
  }

  function RunInline(s: State, t: nat, g: nat): State
    requires g < |s.pool.count| && t < |s.stacks|
  {
    var f := Fn(|s.submitted|, g);
    PushFrame(s.(pool := WorkStarted(s.pool, g), submitted := s.submitted + [f], clock := s.clock + 1),
              t, Exec(f, s.clock + 1))
  }

  function Apply(s: State, a: Action): State
    requires Enabled(s, a)
  {
    match a
    case Exit(t) => s.(stacks := s.stacks[t := []])
    case Take(t) =>
      PushFrame(s.(pool := Dequeued(s.pool), clock := s.clock + 1),
                t, Exec(s.pool.queue[0], s.clock + 1))
    case Sleep(t) => s.(awake := s.awake[t := false])
    case JoinReturn(t) => PopFrame(s, t)
    case StartJoin(t, g) => PushFrame(s, t, Join(g))
    case Return(t) =>
      var f := Top(s, t).fn;
      PopFrame(s.(pool := WorkFinished(s.pool, f.group),
                  awake := AwakeAfterFinish(s, f.group),
                  finished := s.finished + [f]), t)
    case NewGroup(t) =>
      s.(pool := s.pool.(count := s.pool.count + [0]),
         explicitWork := s.explicitWork + [0],
         owner := s.owner + [Stamp(Top(s, t))])
    case Post(t, g, w) => Submit(s, g, w)
    case Dispatch(t, g, w) => if Loaded(s.pool, s.workers) then RunInline(s, t, g) else Submit(s, g, w)
    case BeginWork(t, g) =>
      s.(pool := WorkStarted(s.pool, g), explicitWork := s.explicitWork[g := s.explicitWork[g] + 1])
    case EndWork(t, g) =>
      s.(pool := WorkFinished(s.pool, g),
         awake := AwakeAfterFinish(s, g),
         explicitWork := s.explicitWork[g := s.explicitWork[g] - 1])
    case Stop(t) =>
      s.(pool := s.pool.(useCount := s.pool.useCount - 1), stopped := true, awake := AllAwake(|s.awake|))
    case SpuriousWake(t) => s.(awake := s.awake[t := true])
  }

  /** The constructor has started at least one worker; any number of clients use the pool. */
  predicate Initial(s: State) {
    && s.pool == Pool([], 1, [])
    && 1 <= s.workers <= |s.stacks| == |s.awake|
    && (forall t :: 0 <= t < |s.stacks| ==> s.stacks[t] == [if t < s.workers then Loop else Client])
    && (forall t :: 0 <= t < |s.awake| ==> s.awake[t])
    && !s.stopped && s.explicitWork == [] && s.owner == [] && s.clock == 0
    && s.submitted == [] && s.finished == []
  }

  /** `states` is a run of the pool that takes the steps `actions`. */
  predicate IsRun(states: seq<State>, actions: seq<Action>) {
    && |states| == |actions| + 1
    && Initial(states[0])
    && forall i :: 0 <= i < |actions| ==> Enabled(states[i], actions[i]) && states[i + 1] == Apply(states[i], actions[i])
  }

  // ---------------------------------------------------------------------------
  // What is counted
  // ---------------------------------------------------------------------------

  /** The functions running on one stack, oldest first. */
  function Fns(stack: seq<Frame>): seq<Fn> {
    if stack == [] then [] else
      var top := stack[|stack| - 1];
      Fns(stack[..|stack| - 1]) + if top.Exec? then [top.fn] else []
  }

  /** The functions running on any stack. */
  function Live(stacks: seq<seq<Frame>>): seq<Fn> {
    if stacks == [] then [] else Fns(stacks[0]) + Live(stacks[1..])
  }

  /** How many of the functions belong to group `g`. */
  function Tally(g: nat, fs: seq<Fn>): nat {
    if fs == [] then 0 else (if fs[0].group == g then 1 else 0) + Tally(g, fs[1..])
  }

  /** How many groups have a positive work count. */
  function Positives(count: seq<nat>): nat {
    if count == [] then 0 else (if count[0] > 0 then 1 else 0) + Positives(count[1..])
  }

  // ---------------------------------------------------------------------------
  // The invariant
  // ---------------------------------------------------------------------------

  ghost predicate Sized(s: State) {
    && 1 <= s.workers <= |s.stacks| == |s.awake|
    && |s.pool.count| == |s.explicitWork| == |s.owner|
  }

  ghost predicate GroupsOk(queue: seq<Fn>, owner: seq<nat>, clock: nat) {
    && (forall g :: 0 <= g < |owner| ==> owner[g] <= clock)
    && (forall i :: 0 <= i < |queue| ==> queue[i].group < |owner|)
  }

  /** Frame `i` of thread `t` may stand where it stands. */
  predicate FrameOk(workers: nat, t: nat, stack: seq<Frame>, i: nat, owner: seq<nat>, clock: nat)
    requires i < |stack|
  {
    match stack[i]
    case Loop => i == 0 && t < workers
    case Client => i == 0 && t >= workers
    case Exec(f, stamp) => i > 0 && f.group < |owner| && owner[f.group] < stamp <= clock
    case Join(g) => i > 0 && g < |owner| && (stack[i - 1].Exec? || stack[i - 1].Client?)
  }

  ghost predicate StackOk(workers: nat, t: nat, stack: seq<Frame>, owner: seq<nat>, clock: nat) {
    && (forall i :: 0 <= i < |stack| ==> FrameOk(workers, t, stack, i, owner, clock))
    && (t >= workers ==> stack != [])
    && Ordered(stack)
  }

  /** On one stack, functions higher up started later. */
  ghost predicate Ordered(stack: seq<Frame>) {
    forall i, j :: 0 <= i < j < |stack| && stack[i].Exec? && stack[j].Exec? ==> stack[i].stamp < stack[j].stamp
  }

  ghost predicate StacksOk(workers: nat, stacks: seq<seq<Frame>>, owner: seq<nat>, clock: nat) {
    forall t :: 0 <= t < |stacks| ==> StackOk(workers, t, stacks[t], owner, clock)
  }

  /** The work count of a group is what is queued, running or explicitly outstanding. */
  ghost predicate Accounted(pool: Pool, stacks: seq<seq<Frame>>, explicitWork: seq<nat>) {
    && |pool.count| == |explicitWork|
    && forall g :: 0 <= g < |pool.count| ==>
         pool.count[g] == Tally(g, pool.queue) + Tally(g, Live(stacks)) + explicitWork[g]
  }

  ghost predicate UseCounted(pool: Pool, stopped: bool) {
    pool.useCount == (if stopped then 0 else 1) + Positives(pool.count)
  }

  /** A thread blocks only while the condition of its loop holds. */
  ghost predicate SleepersWait(pool: Pool, stacks: seq<seq<Frame>>, awake: seq<bool>) {
    forall t :: 0 <= t < |stacks| && t < |awake| && !awake[t] ==>
      stacks[t] != [] && LoopHolds(pool, stacks[t][|stacks[t]| - 1])
  }

  /** Workers have left their loops only if the pool is unused. */
  ghost predicate WorkersStay(useCount: nat, workers: nat, stacks: seq<seq<Frame>>) {
    forall t :: 0 <= t < workers && t < |stacks| && stacks[t] == [] ==> useCount == 0
  }

  /** Some join frame of the stack still waits for work. */
  ghost predicate WaitsForWork(count: seq<nat>, stack: seq<Frame>) {
    exists i :: 0 <= i < |stack| && stack[i].Join? && stack[i].group < |count| && count[stack[i].group] > 0
  }

  /** The stack of a thread that will come back to the queue. */
  ghost predicate ComesBack(count: seq<nat>, stack: seq<Frame>) {
    stack != [] && (stack[0].Loop? || WaitsForWork(count, stack))
  }

  ghost predicate SomeoneAlert(count: seq<nat>, stacks: seq<seq<Frame>>, awake: seq<bool>) {
    exists t :: 0 <= t < |stacks| && t < |awake| && awake[t] && ComesBack(count, stacks[t])
  }

  /** No wake-up is ever lost: a non-empty queue has somebody awake to empty it. */
  ghost predicate NoLostWakeup(pool: Pool, stacks: seq<seq<Frame>>, awake: seq<bool>) {
    pool.queue != [] ==> SomeoneAlert(pool.count, stacks, awake)
  }

  /** Every submitted function is queued, running or finished, and only one of them. */
  ghost predicate Conserved(queue: seq<Fn>, stacks: seq<seq<Frame>>, submitted: seq<Fn>, finished: seq<Fn>) {
    && (forall i :: 0 <= i < |submitted| ==> submitted[i].id == i)
    && multiset(queue) + multiset(Live(stacks)) + multiset(finished) == multiset(submitted)
  }

  ghost predicate Inv(s: State) {
    && Sized(s)
    && GroupsOk(s.pool.queue, s.owner, s.clock)
    && StacksOk(s.workers, s.stacks, s.owner, s.clock)
    && Accounted(s.pool, s.stacks, s.explicitWork)
    && UseCounted(s.pool, s.stopped)
    && SleepersWait(s.pool, s.stacks, s.awake)
    && WorkersStay(s.pool.useCount, s.workers, s.stacks)
    && NoLostWakeup(s.pool, s.stacks, s.awake)
    && Conserved(s.pool.queue, s.stacks, s.submitted, s.finished)
  }

  // ---------------------------------------------------------------------------
  // Counting lemmas
  // ---------------------------------------------------------------------------

  lemma {:induction false} TallyConcat(g: nat, a: seq<Fn>, b: seq<Fn>)
    ensures Tally(g, a + b) == Tally(g, a) + Tally(g, b)
  {
    if a == [] {
      assert a + b == b;
    } else {
      TallyConcat(g, a[1..], b);
      assert (a + b)[1..] == a[1..] + b;
    }
  }

  lemma {:induction false} TallyMember(g: nat, fs: seq<Fn>)
    ensures Tally(g, fs) > 0 <==> exists i :: 0 <= i < |fs| && fs[i].group == g
  {
    if fs != [] {
      TallyMember(g, fs[1..]);
      if Tally(g, fs[1..]) > 0 {
        var i :| 0 <= i < |fs[1..]| && fs[1..][i].group == g;
        assert fs[i + 1].group == g;
      }
      if i :| 0 <= i < |fs| && fs[i].group == g {
        assert i > 0 ==> fs[1..][i - 1].group == g;
      }
    }
  }

  lemma FnsPush(stack: seq<Frame>, f: Frame)
    ensures Fns(stack + [f]) == if f.Exec? then Fns(stack) + [f.fn] else Fns(stack)
  {
    assert (stack + [f])[..|stack|] == stack;
  }

  lemma {:induction false} LiveSplit(ss: seq<seq<Frame>>, t: nat)
    requires t < |ss|
    ensures Live(ss) == Live(ss[..t]) + Fns(ss[t]) + Live(ss[t + 1..])
  {
    if t > 0 {
      LiveSplit(ss[1..], t - 1);
      assert ss[1..][..t - 1] == ss[..t][1..];
      assert ss[1..][t..] == ss[t + 1..];
    }
  }

  lemma {:induction false} PositivesUpdate(count: seq<nat>, g: nat, n: nat)
    requires g < |count|
    ensures Positives(count[g := n]) ==
            Positives(count) - (if count[g] > 0 then 1 else 0) + (if n > 0 then 1 else 0)
  {
    if g > 0 {
      PositivesUpdate(count[1..], g - 1, n);
      assert count[g := n][1..] == count[1..][g - 1 := n];
    } else {
      assert count[g := n][1..] == count[1..];
    }
  }

  lemma {:induction false} PositivesPush(count: seq<nat>)
    ensures Positives(count + [0]) == Positives(count)
  {
    if count != [] {
      PositivesPush(count[1..]);
      assert (count + [0])[1..] == count[1..] + [0];
    }
  }

  lemma {:induction false} PositivesZero(count: seq<nat>)
    ensures Positives(count) == 0 <==> forall g :: 0 <= g < |count| ==> count[g] == 0
  {
    if count != [] {
      PositivesZero(count[1..]);
      if Positives(count) == 0 {
        forall g | 0 <= g < |count|
          ensures count[g] == 0
        {
          assert g > 0 ==> count[g] == count[1..][g - 1];
        }
      }
    }
  }

  lemma {:induction false} FnsMember(stack: seq<Frame>, f: Fn)
    ensures f in Fns(stack) <==> exists i :: 0 <= i < |stack| && stack[i].Exec? && stack[i].fn == f
  {
    if stack != [] {
      var n := |stack| - 1;
      var rest := stack[..n];
      FnsPush(rest, stack[n]);
      assert rest + [stack[n]] == stack;
      hide Fns;
      FnsMember(rest, f);
      if i :| 0 <= i < n && rest[i].Exec? && rest[i].fn == f {
        assert stack[i].Exec? && stack[i].fn == f;
      }
      if i :| 0 <= i < |stack| && stack[i].Exec? && stack[i].fn == f {
        assert i < n ==> rest[i] == stack[i];
      }
    }
  }

  lemma LiveCons(ss: seq<seq<Frame>>)
    requires ss != []
    ensures Live(ss) == Fns(ss[0]) + Live(ss[1..])
  {
  }

  lemma {:induction false} LiveMember(ss: seq<seq<Frame>>, f: Fn)
    ensures f in Live(ss) <==> exists t, i :: 0 <= t < |ss| && 0 <= i < |ss[t]| && ss[t][i].Exec? && ss[t][i].fn == f
  {
    assert Live([]) == [];
    hide Live, Fns;
    if ss != [] {
      var rest := ss[1..];
      LiveCons(ss);
      FnsMember(ss[0], f);
      LiveMember(rest, f);
      if f in Live(rest) {
        var t, i :| 0 <= t < |rest| && 0 <= i < |rest[t]| && rest[t][i].Exec? && rest[t][i].fn == f;
        assert ss[t + 1][i].Exec? && ss[t + 1][i].fn == f;
      }
      if t, i :| 0 <= t < |ss| && 0 <= i < |ss[t]| && ss[t][i].Exec? && ss[t][i].fn == f {
        assert t > 0 ==> rest[t - 1] == ss[t];
      }
    }
  }
}
