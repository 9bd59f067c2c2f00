/**
 What fork_join_sort promises when it runs on the fork/join pool: every run is a
 run of the schedule-free sort, so the range ends as a sorted permutation and
 nothing else changes; the pool it runs on never has a cycle of waits; and from
 every reachable state the threads can bring the sort to its end.
 */
module SortOnPoolTheorems {
  import opened ForkJoinPool
  import opened ForkJoinSafety
  import T = ForkJoinTheorems
  import D = ForkJoinDeadlock
  import opened SortOnPool
  import opened SortOnPoolTasks
  import opened SortOnPoolSafety
  import S = ForkJoinSort

  // ---------------------------------------------------------------------------
  // Every step is a step of the task
  // ---------------------------------------------------------------------------

  /** Dispatching a half does not change the task. */
  lemma {:induction false} ForkSame(calls: seq<Call>, c: nat, d: nat)
    requires Tree(calls) && c < |calls| && d < |calls| && (calls[c].phase.Made? || calls[c].phase.Half?)
    ensures TaskOf(AfterFork(calls, c), d) == TaskOf(calls, d)
    decreases |calls| - d
  {
    assert ChildrenOk(calls, d);
    var q := calls[d].phase;
    if q.Half? || HasBoth(q) {
      ForkSame(calls, c, q.left);
    }
    if HasBoth(q) {
      ForkSame(calls, c, q.right);
    }
  }

  /** A step of a call is a step of the whole sort. */
  lemma CallMoves(calls: seq<Call>, c: nat, p: Phase, a: seq<real>, a': seq<real>)
    requires Tree(calls) && c < |calls| && !calls[c].phase.Finished?
    requires Moves(a, TaskOf(calls, c), a', TaskOf(SetPhase(calls, c, p), c))
    ensures Moves(a, TaskOf(calls, 0), a', TaskOf(SetPhase(calls, c, p), 0))
  {
    hide Moves, Tree;
    Lift(calls, c, p, c, a, a');
  }

  /** Entering the join does not change the task. */
  lemma WaitSame(calls: seq<Call>, c: nat)
    requires Tree(calls) && c < |calls| && calls[c].phase.Both?
    ensures var q := calls[c].phase;
      TaskOf(SetPhase(calls, c, Joining(q.g, q.left, q.right)), c) == TaskOf(calls, c)
  {
    var q := calls[c].phase;
    assert ChildrenOk(calls, c);
    ChildIsBelow(calls, c, q.left);
    ChildIsBelow(calls, c, q.right);
    TaskSame(calls, c, Joining(q.g, q.left, q.right), q.left);
    TaskSame(calls, c, Joining(q.g, q.left, q.right), q.right);
  }

  lemma ChildIsBelow(calls: seq<Call>, c: nat, d: nat)
    requires c < d
    ensures !Under(calls, c, d)
  {
    if Under(calls, c, d) {
      UnderIsLater(calls, c, d);
    }
  }

  lemma BeginMoves(x: System, t: nat)
    requires Tree(x.calls) && Can(x, Begin(t))
    ensures Moves(x.a, TaskOf(x.calls, 0), x.a, TaskOf(Do(x, Begin(t)).calls, 0))
  {
    var c, k := CallOf(Top(x.s, t)), Current(x, t);
    var p := if k.n > S.THRESHOLD then Made(|x.s.pool.count|) else Sorting(x.a[k.lo..k.lo + k.n]);
    assert Do(x, Begin(t)).calls == SetPhase(x.calls, c, p);
    hide Tree, Can, Do, Runs;
    CallMoves(x.calls, c, p, x.a, x.a);
  }

  lemma WriteMoves(x: System, t: nat, p: Phase, a': seq<real>)
    requires Tree(x.calls) && Runs(x, t) && MayWrite(Current(x, t), x.a, a') && ChildrenOk(x.calls, CallOf(Top(x.s, t)))
    requires p == Current(x, t).phase || (p == Finished && MayEnd(Current(x, t), a'))
    ensures Moves(x.a, TaskOf(x.calls, 0), a', TaskOf(SetPhase(x.calls, CallOf(Top(x.s, t)), p), 0))
  {
    var c := CallOf(Top(x.s, t));
    WorkMoves(x.calls, c, p, x.a, a');
    hide Tree, Runs, MayWrite, MayEnd, Moves, TaskOf;
    CallMoves(x.calls, c, p, x.a, a');
  }

  /** A write of sort or inplace_merge, or its return, is a step of the task of the call. */
  lemma WorkMoves(calls: seq<Call>, c: nat, p: Phase, a: seq<real>, a': seq<real>)
    requires c < |calls| && MayWrite(calls[c], a, a') && |calls[c].phase.start| == calls[c].n
    requires p == calls[c].phase || (p == Finished && MayEnd(calls[c], a'))
    ensures !calls[c].phase.Finished? && Moves(a, TaskOf(calls, c), a', TaskOf(SetPhase(calls, c, p), c))
  {
    hide S.Sorted;
  }

  lemma ResumeMoves(x: System, t: nat)
    requires SysInv(x) && Can(x, Resume(t))
    ensures Moves(x.a, TaskOf(x.calls, 0), x.a, TaskOf(Do(x, Resume(t)).calls, 0))
  {
    hide Inv, JoinsAbove, CallsFit, QueueReady, FinishedDone, FramesFit, GroupsFit, Tree;
    HalvesAreDone(x, t);
    var i := |x.s.stacks[t]| - 2;
    var c := CallOf(x.s.stacks[t][i]);
    CallFits(x, t, i);
    var k := x.calls[c];
    var p := Merging(x.a[k.lo..k.lo + k.n]);
    assert Do(x, Resume(t)).calls == SetPhase(x.calls, c, p);
    hide SysInv, Do, Can, Resumes, Enabled;
    MergeMoves(x.calls, c, p, x.a);
  }

  lemma MergeMoves(calls: seq<Call>, c: nat, p: Phase, a: seq<real>)
    requires Tree(calls) && c < |calls| && calls[c].phase.Joining? && ChildrenOk(calls, c) && Fits(calls[c], a)
    requires calls[calls[c].phase.left].phase.Finished? && calls[calls[c].phase.right].phase.Finished?
    requires p == Merging(a[calls[c].lo..calls[c].lo + calls[c].n])
    ensures Moves(a, TaskOf(calls, 0), a, TaskOf(SetPhase(calls, c, p), 0))
  {
    hide Tree;
    var k := calls[c];
    assert TaskOf(calls, c) == S.Forked(S.Done(k.lo, k.lo + k.n / 2), S.Done(k.lo + k.n / 2, k.lo + k.n));
    CallMoves(calls, c, p, a, a);
  }

  /** Every step of the system is one step of the sort task, or none. */
  lemma StepRefines(x: System, m: Move)
    requires SysInv(x) && Can(x, m)
    ensures Do(x, m).calls != [] && Moves(x.a, TaskOf(x.calls, 0), Do(x, m).a, TaskOf(Do(x, m).calls, 0))
  {
    hide Inv, JoinsAbove, CallsFit, QueueReady, FinishedDone, FramesFit, GroupsFit, Tree, TaskOf, S.Step;
    match m
    case Background(act) =>
    case Begin(t) => BeginMoves(x, t);
    case Fork(t, w) => ForkSame(x.calls, CallOf(Top(x.s, t)), 0);
    case Wait(t) =>
      var c, q := CallOf(Top(x.s, t)), Current(x, t).phase;
      WaitSame(x.calls, c);
      CallMoves(x.calls, c, Joining(q.g, q.left, q.right), x.a, x.a);
    case Resume(t) => ResumeMoves(x, t);
    case Write(t, a') =>
      CallFits(x, t, |x.s.stacks[t]| - 1);
      WriteMoves(x, t, Current(x, t).phase, a');
      assert SetPhase(x.calls, CallOf(Top(x.s, t)), Current(x, t).phase) == x.calls;
    case End(t, a') =>
      CallFits(x, t, |x.s.stacks[t]| - 1);
      WriteMoves(x, t, Finished, a');
    case Leave(t) =>
  }

  // ---------------------------------------------------------------------------
  // Whole runs
  // ---------------------------------------------------------------------------

  lemma StartsInv(x: System, lo: nat, n: nat)
    requires Starts(x, lo, n)
    ensures SysInv(x)
  {
    hide Inv, FramesFit, JoinsAbove;
    InitialInv(x.s);
    StartFrames(x, lo, n);
  }

  lemma StartFrames(x: System, lo: nat, n: nat)
    requires Starts(x, lo, n)
    ensures FramesFit(x.calls, x.s.owner, x.s.workers, x.s.stacks) && JoinsAbove(x.calls, x.s.workers, x.s.stacks)
  {
    forall t, i | 0 <= t < |x.s.stacks| && 0 <= i < |x.s.stacks[t]|
      ensures FrameFits(x.calls, x.s.owner, x.s.workers, t, x.s.stacks[t], i) && !Waits(x.calls, x.s.workers, t, x.s.stacks[t][i])
    {
      assert x.s.stacks[t] == [if t < x.s.workers then Loop else Client];
    }
  }

  lemma {:induction false} RunSysInv(xs: seq<System>, moves: seq<Move>, lo: nat, n: nat, i: nat)
    requires IsSortRun(xs, moves, lo, n) && i < |xs|
    ensures SysInv(xs[i])
  {
    hide SysInv, Starts, Can, Do;
    if i == 0 {
      StartsInv(xs[0], lo, n);
    } else {
      RunSysInv(xs, moves, lo, n, i - 1);
      assert Can(xs[i - 1], moves[i - 1]) && xs[(i - 1) + 1] == Do(xs[i - 1], moves[i - 1]);
      KeepSysInv(xs[i - 1], moves[i - 1]);
    }
  }

  /** Every run of the sort on the pool is a run of the schedule-free sort. */
  lemma {:induction false} InducedRun(xs: seq<System>, moves: seq<Move>, lo: nat, n: nat, i: nat)
    returns (arrays: seq<seq<real>>, tasks: seq<S.Task>)
    requires IsSortRun(xs, moves, lo, n) && i < |xs|
    ensures S.IsRun(arrays, tasks, lo, lo + n) && xs[i].calls != []
    ensures arrays[0] == xs[0].a && arrays[|arrays| - 1] == xs[i].a && tasks[|tasks| - 1] == TaskOf(xs[i].calls, 0)
  {
    hide SysInv, Can, Do;
    if i == 0 {
      arrays, tasks := [xs[0].a], [S.Pending(lo, lo + n)];
      assert TaskOf(xs[0].calls, 0) == S.Pending(lo, lo + n);
    } else {
      hide Starts, TaskOf;
      arrays, tasks := InducedRun(xs, moves, lo, n, i - 1);
      RunSysInv(xs, moves, lo, n, i - 1);
      var x, m := xs[i - 1], moves[i - 1];
      assert Can(x, m) && xs[(i - 1) + 1] == Do(x, m);
      StepRefines(x, m);
      if !(xs[i].a == x.a && TaskOf(xs[i].calls, 0) == TaskOf(x.calls, 0)) {
        arrays, tasks := ExtendTask(arrays, tasks, lo, lo + n, xs[i].a, TaskOf(xs[i].calls, 0));
      }
    }
  }

  lemma ExtendTask(arrays: seq<seq<real>>, tasks: seq<S.Task>, lo: nat, hi: nat, a': seq<real>, t': S.Task)
    returns (arrays': seq<seq<real>>, tasks': seq<S.Task>)
    requires S.IsRun(arrays, tasks, lo, hi) && S.Step(arrays[|arrays| - 1], tasks[|tasks| - 1], a', t')
    ensures S.IsRun(arrays', tasks', lo, hi) && arrays' == arrays + [a'] && tasks' == tasks + [t']
  {
    hide S.Step;
    arrays', tasks' := arrays + [a'], tasks + [t'];
    forall i | 0 < i < |tasks'|
      ensures S.Step(arrays'[i - 1], tasks'[i - 1], arrays'[i], tasks'[i])
    {
      if i < |tasks| {
        assert S.Step(arrays[i - 1], tasks[i - 1], arrays[i], tasks[i]);
      }
    }
  }

  /**
   Whatever the workers, the joins and the scheduler do: nothing outside the range
   changes, and when the main thread's call is done the range is a sorted
   permutation of what it was.
   */
  lemma PoolSortIsCorrect(xs: seq<System>, moves: seq<Move>, lo: nat, n: nat, i: nat)
    requires IsSortRun(xs, moves, lo, n) && i < |xs|
    ensures S.SameOutside(xs[0].a, xs[i].a, lo, lo + n)
    ensures xs[i].calls != [] && xs[i].calls[0].phase.Finished? ==>
      lo + n <= |xs[i].a| == |xs[0].a| && S.SortedPermutation(xs[i].a[lo..lo + n], xs[0].a[lo..lo + n])
  {
    var arrays, tasks := InducedRun(xs, moves, lo, n, i);
    hide IsSortRun;
    S.SortsUnderEverySchedule(arrays, tasks, lo, lo + n, |tasks| - 1);
  }

  /** On the pool, too, exactly the ranges of more than 32768 elements are cut in half. */
  lemma PoolSortIsWellCut(xs: seq<System>, moves: seq<Move>, lo: nat, n: nat, i: nat)
    requires IsSortRun(xs, moves, lo, n) && i < |xs|
    ensures xs[i].calls != [] && S.WellCut(TaskOf(xs[i].calls, 0))
  {
    var arrays, tasks := InducedRun(xs, moves, lo, n, i);
    hide IsSortRun, TaskOf;
    S.RunKeepsCut(arrays, tasks, lo, lo + n, |tasks| - 1);
  }

  lemma MoveKeepsQueueShort(x: System, m: Move)
    requires Can(x, m) && |x.s.pool.queue| <= 16 * x.s.workers + 1
    ensures Do(x, m).s.workers == x.s.workers && |Do(x, m).s.pool.queue| <= 16 * x.s.workers + 1
  {
    hide Apply;
    match m
    case Background(act) => T.StepKeepsQueueShort(x.s, act);
    case Begin(t) => T.StepKeepsQueueShort(x.s, NewGroup(t));
    case Fork(t, w) => T.StepKeepsQueueShort(x.s, Dispatch(t, Current(x, t).phase.g, w));
    case Wait(t) => T.StepKeepsQueueShort(x.s, StartJoin(t, Current(x, t).phase.g));
    case Resume(t) => T.StepKeepsQueueShort(x.s, JoinReturn(t));
    case Leave(t) => T.StepKeepsQueueShort(x.s, Return(t));
    case _ =>
  }

  /** However large the range, the sort never has more than 16 calls per worker and one in the queue. */
  lemma {:induction false} SortQueueStaysShort(xs: seq<System>, moves: seq<Move>, lo: nat, n: nat, i: nat)
    requires IsSortRun(xs, moves, lo, n) && i < |xs|
    ensures xs[i].s.workers == xs[0].s.workers && |xs[i].s.pool.queue| <= 16 * xs[0].s.workers + 1
  {
    hide Can, Do;
    if i > 0 {
      SortQueueStaysShort(xs, moves, lo, n, i - 1);
      assert Can(xs[i - 1], moves[i - 1]) && xs[(i - 1) + 1] == Do(xs[i - 1], moves[i - 1]);
      MoveKeepsQueueShort(xs[i - 1], moves[i - 1]);
    }
  }

  // ---------------------------------------------------------------------------
  // No deadlock
  // ---------------------------------------------------------------------------

  lemma CallsJoinOwnGroups(x: System)
    requires SysInv(x)
    ensures D.JoinedByCreator(x.s) && D.NoExplicitWaits(x.s)
  {
    hide Tree, JoinsAbove, CallsFit, QueueReady, FinishedDone;
    hide Accounted, SleepersWait, UseCounted, NoLostWakeup, WorkersStay, Live, GroupsOk, Conserved;
    forall t, i | 0 <= t < |x.s.stacks| && 0 < i < |x.s.stacks[t]| && x.s.stacks[t][i].Join? && x.s.stacks[t][i - 1].Exec?
      ensures x.s.stacks[t][i].group < |x.s.owner| && x.s.owner[x.s.stacks[t][i].group] == x.s.stacks[t][i - 1].stamp
      ensures x.s.stacks[t][i].group < |x.s.explicitWork| && x.s.explicitWork[x.s.stacks[t][i].group] == 0
    {
      assert StackFits(x.calls, x.s.owner, x.s.workers, t, x.s.stacks[t]);
      assert FrameFits(x.calls, x.s.owner, x.s.workers, t, x.s.stacks[t], i);
      assert FrameFits(x.calls, x.s.owner, x.s.workers, t, x.s.stacks[t], i - 1);
    }
  }

  /** The pool a sort runs on never has a cycle of waits. */
  lemma SortHasNoWaitCycle(xs: seq<System>, moves: seq<Move>, lo: nat, n: nat, i: nat)
    requires IsSortRun(xs, moves, lo, n) && i < |xs|
    ensures Inv(xs[i].s) && D.NoWaitCycle(xs[i].s) && D.NoExplicitWaits(xs[i].s)
  {
    RunSysInv(xs, moves, lo, n, i);
    CallsJoinOwnGroups(xs[i]);
    hide IsSortRun, D.JoinedByCreator, D.NoWaitCycle, D.NoExplicitWaits, Inv;
    D.CreatorsMakeNoCycle(xs[i].s);
  }

  // ---------------------------------------------------------------------------
  // The sort can always be finished
  // ---------------------------------------------------------------------------

  /** Steps a call on `n` elements takes at most, with all its halves. */
  function ReadyWork(n: nat): nat {
    if n == 0 then 2 else 24 * n - 12
  }

  function Work(k: Call): nat {
    match k.phase
    case Ready => ReadyWork(k.n)
    case Sorting(_) => 1
    case Made(_) => 10 + ReadyWork(k.n / 2) + ReadyWork(k.n - k.n / 2)
    case Half(_, _) => 7 + ReadyWork(k.n - k.n / 2)
    case Both(_, _, _) => 4
    case Joining(_, _, _) => 2
    case Merging(_) => 1
    case Finished => 0
  }

  function TotalWork(calls: seq<Call>): nat {
    if calls == [] then 0 else TotalWork(calls[..|calls| - 1]) + Work(calls[|calls| - 1])
  }

  function WorkLeft(x: System): nat {
    TotalWork(x.calls) + D.WorkLeft(x.s)
  }

  lemma {:induction false} WorkUpdate(calls: seq<Call>, c: nat, k: Call)
    requires c < |calls|
    ensures TotalWork(calls[c := k]) == TotalWork(calls) - Work(calls[c]) + Work(k)
  {
    hide Work;
    var n := |calls| - 1;
    if c < n {
      WorkUpdate(calls[..n], c, k);
      assert calls[c := k][..n] == calls[..n][c := k];
    } else {
      assert calls[c := k][..n] == calls[..n];
    }
  }

  lemma WorkPush(calls: seq<Call>, k: Call)
    ensures TotalWork(calls + [k]) == TotalWork(calls) + Work(k)
  {
    assert (calls + [k])[..|calls|] == calls;
  }

  /** Dispatching a half moves work to the new call. */
  lemma WorkFork(calls: seq<Call>, c: nat)
    requires c < |calls| && (calls[c].phase.Made? || calls[c].phase.Half?)
    ensures TotalWork(AfterFork(calls, c)) == TotalWork(calls) - 3
  {
    hide TotalWork;
    var k := calls[c];
    match k.phase
    case Made(g) =>
      WorkUpdate(calls, c, k.(phase := Half(g, |calls|)));
      WorkPush(SetPhase(calls, c, Half(g, |calls|)), Call(k.lo, k.n / 2, c, Ready));
    case Half(g, l) =>
      WorkUpdate(calls, c, k.(phase := Both(g, l, |calls|)));
      WorkPush(SetPhase(calls, c, Both(g, l, |calls|)), Call(k.lo + k.n / 2, k.n - k.n / 2, c, Ready));
  }

  /** What the pool has to do for the steps of the calls. */
  lemma PoolWork(s: State, act: Action)
    requires Enabled(s, act)
    ensures act.NewGroup? ==> D.WorkLeft(Apply(s, act)) == D.WorkLeft(s)
    ensures act.StartJoin? ==> D.WorkLeft(Apply(s, act)) == D.WorkLeft(s) + 1
    ensures act.Dispatch? ==> D.WorkLeft(Apply(s, act)) <= D.WorkLeft(s) + 2
    ensures act.Take? || act.JoinReturn? || act.Return? ==> D.WorkLeft(Apply(s, act)) < D.WorkLeft(s)
  {
    hide D.Frames;
    if act.StartJoin? || act.Dispatch? {
      D.FramesUpdate(s.stacks, act.t, Apply(s, act).stacks[act.t]);
      assert Apply(s, act).stacks == s.stacks[act.t := Apply(s, act).stacks[act.t]];
    } else if D.Productive(act) {
      D.ProductiveDecreases(s, act);
    }
  }

  /** The moves that bring the end closer. */
  predicate Useful(m: Move) {
    match m
    case Background(act) => act.Take?
    case Write(_, _) => false
    case _ => true
  }

  lemma UsefulDecreases(x: System, m: Move)
    requires Can(x, m) && Useful(m)
    ensures WorkLeft(Do(x, m)) < WorkLeft(x)
  {
    hide D.WorkLeft, TotalWork, Apply;
    match m
    case Background(act) => PoolWork(x.s, act);
    case Begin(t) =>
      var c, k := CallOf(Top(x.s, t)), Current(x, t);
      AfterNewGroup(x.s, t);
      PoolWork(x.s, NewGroup(t));
      WorkUpdate(x.calls, c, Do(x, m).calls[c]);
    case Fork(t, w) =>
      PoolWork(x.s, Dispatch(t, Current(x, t).phase.g, w));
      WorkFork(x.calls, CallOf(Top(x.s, t)));
    case Wait(t) =>
      var c := CallOf(Top(x.s, t));
      PoolWork(x.s, StartJoin(t, Current(x, t).phase.g));
      WorkUpdate(x.calls, c, Do(x, m).calls[c]);
    case Resume(t) =>
      var c := CallOf(x.s.stacks[t][|x.s.stacks[t]| - 2]);
      PoolWork(x.s, JoinReturn(t));
      WorkUpdate(x.calls, c, Do(x, m).calls[c]);
    case End(t, a') =>
      var c := CallOf(Top(x.s, t));
      WorkUpdate(x.calls, c, Do(x, m).calls[c]);
    case Leave(t) => PoolWork(x.s, Return(t));
  }

  ghost predicate CanGoOn(x: System) {
    exists m :: Can(x, m) && Useful(m)
  }

  lemma GoesOn(x: System, m: Move)
    requires Can(x, m) && Useful(m)
    ensures CanGoOn(x)
  {
  }

  ghost function Picked(awake: seq<bool>): (w: nat)
    requires awake != []
    ensures CanPick(awake, w)
  {
    if forall u :: 0 <= u < |awake| ==> awake[u] then 0 else var u :| 0 <= u < |awake| && !awake[u]; u
  }

  lemma WorkEnds(x: System, t: nat)
    requires Runs(x, t) && (Current(x, t).phase.Sorting? || Current(x, t).phase.Merging?)
    requires Fits(Current(x, t), x.a) && |Current(x, t).phase.start| == Current(x, t).n
    ensures CanGoOn(x)
  {
    hide S.Sorted, CanGoOn;
    var k := Current(x, t);
    var a' := S.Finish(x.a, k.lo, k.lo + k.n, k.phase.start);
    assert MayEnd(k, a');
    hide MayEnd, MayWrite;
    assert Can(x, End(t, a')) by {
      assert MayWrite(k, x.a, a');
    }
    GoesOn(x, End(t, a'));
  }

  lemma HalfGoesOut(x: System, t: nat)
    requires Runs(x, t) && (Current(x, t).phase.Made? || Current(x, t).phase.Half?) && x.s.awake != []
    requires MaySubmit(x.s, t, Current(x, t).phase.g)
    ensures CanGoOn(x)
  {
    hide CanGoOn;
    GoesOn(x, Fork(t, Picked(x.s.awake)));
  }

  /** A thread with a call on top of its stack can go on with it, unless it is the main thread's and done. */
  lemma CallGoesOn(x: System, t: nat)
    requires SysInv(x) && Runs(x, t) && (Top(x.s, t).Client? ==> !x.calls[0].phase.Finished?)
    ensures CanGoOn(x)
  {
    var k, i := Current(x, t), |x.s.stacks[t]| - 1;
    hide Inv, JoinsAbove, CallsFit, QueueReady, FinishedDone, FramesFit, GroupsFit, Tree, CanGoOn, NoExplicitWork;
    TopDoesNotWait(x, t);
    CallFits(x, t, i);
    if k.phase.Ready? {
      GoesOn(x, Begin(t));
    } else if k.phase.Sorting? || k.phase.Merging? {
      WorkEnds(x, t);
    } else if k.phase.Made? || k.phase.Half? {
      HalfGoesOut(x, t);
    } else if k.phase.Both? {
      GoesOn(x, Wait(t));
    } else {
      FunctionCanReturn(x.s, t);
      GoesOn(x, Leave(t));
    }
  }

  lemma TopDoesNotWait(x: System, t: nat)
    requires SysInv(x) && Runs(x, t)
    ensures !Current(x, t).phase.Joining? && x.s.awake != [] && |x.s.explicitWork| == |x.s.pool.count|
  {
    assert !Waits(x.calls, x.s.workers, t, x.s.stacks[t][|x.s.stacks[t]| - 1]);
    hide QueueReady, FinishedDone, StacksOk, Accounted, SleepersWait, UseCounted, NoLostWakeup, WorkersStay, Live, GroupsOk, Conserved;
  }

  lemma FunctionCanReturn(s: State, t: nat)
    requires Inv(s) && Active(s, t) && Top(s, t).Exec?
    ensures Enabled(s, Return(t))
  {
    RunningMeansPositive(s, t, |s.stacks[t]| - 1);
    PositiveMeansUsed(s.pool, s.stopped, Top(s, t).fn.group);
  }

  /** A function that may return, take or leave a join is a call that can go on. */
  lemma PoolGoesOn(x: System, act: Action)
    requires SysInv(x) && D.Productive(act) && Enabled(x.s, act)
    ensures CanGoOn(x)
  {
    hide Inv, JoinsAbove, CallsFit, QueueReady, FinishedDone, GroupsFit, Tree, CanGoOn, NoExplicitWork, FramesFit;
    if act.Take? {
      GoesOn(x, Background(act));
    } else if act.Return? {
      FrameHasCall(x, act.t, |x.s.stacks[act.t]| - 1);
      CallGoesOn(x, act.t);
    } else {
      HalvesAreDone(x, act.t);
      CallFits(x, act.t, |x.s.stacks[act.t]| - 2);
      GoesOn(x, Resume(act.t));
    }
  }

  lemma FrameHasCall(x: System, t: nat, i: nat)
    requires SysInv(x) && t < |x.s.stacks| && i < |x.s.stacks[t]| && x.s.stacks[t][i].Exec?
    ensures CallOf(x.s.stacks[t][i]) < |x.calls|
  {
    assert StackFits(x.calls, x.s.owner, x.s.workers, t, x.s.stacks[t]);
    assert FrameFits(x.calls, x.s.owner, x.s.workers, t, x.s.stacks[t], i);
  }

  /** With no function left, the main thread runs its call or can leave its join. */
  lemma MainGoesOn(x: System)
    requires SysInv(x) && !D.Unfinished(x.s) && !x.calls[0].phase.Finished?
    ensures CanGoOn(x)
  {
    hide JoinsAbove, CallsFit, QueueReady, FinishedDone, GroupsFit, Tree, CanGoOn, FramesFit;
    hide UseCounted, NoLostWakeup, WorkersStay, GroupsOk, Conserved, Live, SleepersWait;
    var t := x.s.workers;
    assert StackOk(x.s.workers, t, x.s.stacks[t], x.s.owner, x.s.clock);
    var i := |x.s.stacks[t]| - 1;
    assert FrameOk(x.s.workers, t, x.s.stacks[t], i, x.s.owner, x.s.clock);
    NotBlocked(x.s, t);
    if Top(x.s, t).Exec? {
      LiveMember(x.s.stacks, Top(x.s, t).fn);
      assert false;
    } else if Top(x.s, t).Client? {
      CallGoesOn(x, t);
    } else {
      PoolGoesOn(x, JoinReturn(t));
    }
  }

  /** A thread whose top frame is code or the join of a group without work is awake. */
  lemma NotBlocked(s: State, t: nat)
    requires Sized(s) && SleepersWait(s.pool, s.stacks, s.awake) && t < |s.stacks| && s.stacks[t] != []
    ensures !LoopHolds(s.pool, Top(s, t)) ==> s.awake[t]
  {
  }

  /** Until the main thread's call is done, some thread can bring the end closer. */
  lemma SortProgress(x: System)
    requires SysInv(x) && !x.calls[0].phase.Finished?
    ensures CanGoOn(x)
  {
    CallsJoinOwnGroups(x);
    hide Inv, JoinsAbove, CallsFit, QueueReady, FinishedDone, GroupsFit, Tree, CanGoOn, FramesFit, NoExplicitWork;
    hide D.JoinedByCreator, D.NoWaitCycle, D.NoExplicitWaits, D.Unfinished, Enabled;
    if D.Unfinished(x.s) {
      D.CreatorsMakeNoCycle(x.s);
      D.Progress(x.s);
      var act :| D.Productive(act) && Enabled(x.s, act);
      PoolGoesOn(x, act);
    } else {
      MainGoesOn(x);
    }
  }

  /** The moves lead from `x` to `x'`. */
  ghost predicate Reaches(x: System, moves: seq<Move>, x': System)
    decreases |moves|
  {
    if moves == [] then x == x' else Can(x, moves[0]) && Reaches(Do(x, moves[0]), moves[1..], x')
  }

  lemma {:induction false} CanAlwaysSort(x: System) returns (moves: seq<Move>, x': System)
    requires SysInv(x)
    ensures Reaches(x, moves, x') && SysInv(x') && x'.calls[0].phase.Finished?
    decreases WorkLeft(x)
  {
    hide Can, Do, Useful, WorkLeft, Inv, JoinsAbove, CallsFit, QueueReady, FinishedDone, GroupsFit, Tree, FramesFit, NoExplicitWork;
    if x.calls[0].phase.Finished? {
      moves, x' := [], x;
    } else {
      SortProgress(x);
      var m :| Can(x, m) && Useful(m);
      UsefulDecreases(x, m);
      KeepSysInv(x, m);
      var rest, last := CanAlwaysSort(Do(x, m));
      moves, x' := [m] + rest, last;
      assert moves[1..] == rest;
    }
  }

  /** From every state of every run the threads can bring the sort to its end. */
  lemma SortCanFinish(xs: seq<System>, moves: seq<Move>, lo: nat, n: nat, i: nat) returns (rest: seq<Move>, x': System)
    requires IsSortRun(xs, moves, lo, n) && i < |xs|
    ensures Reaches(xs[i], rest, x') && x'.calls != [] && x'.calls[0].phase.Finished?
  {
    RunSysInv(xs, moves, lo, n, i);
    hide IsSortRun, Reaches, Inv, JoinsAbove, CallsFit, QueueReady, FinishedDone, GroupsFit, FramesFit, NoExplicitWork;
    rest, x' := CanAlwaysSort(xs[i]);
  }

  /** The other steps leave no more work than there was. */
  lemma OthersKeepWork(x: System, m: Move)
    requires Can(x, m) && !Useful(m)
    ensures WorkLeft(Do(x, m)) <= WorkLeft(x)
  {
    if m.Background? {
      hide D.Frames, TotalWork;
      if m.act.Exit? {
        D.FramesUpdate(x.s.stacks, m.act.t, []);
      }
    }
  }

  function UsefulIn(moves: seq<Move>): nat {
    if moves == [] then 0 else UsefulIn(moves[..|moves| - 1]) + if Useful(moves[|moves| - 1]) then 1 else 0
  }

  /** No run has more useful moves than there is work at its start: the sort cannot go on for ever. */
  lemma {:induction false} UsefulMovesAreBounded(xs: seq<System>, moves: seq<Move>, lo: nat, n: nat, i: nat)
    requires IsSortRun(xs, moves, lo, n) && i < |xs|
    ensures UsefulIn(moves[..i]) + WorkLeft(xs[i]) <= WorkLeft(xs[0])
  {
    hide WorkLeft, Do, Can, Useful, Starts;
    if i > 0 {
      UsefulMovesAreBounded(xs, moves, lo, n, i - 1);
      var x, m := xs[i - 1], moves[i - 1];
      assert Can(x, m) && xs[(i - 1) + 1] == Do(x, m);
      assert moves[..i][..i - 1] == moves[..i - 1];
      if Useful(m) {
        UsefulDecreases(x, m);
      } else {
        OthersKeepWork(x, m);
      }
    }
  }

  /** How much work the first call is: at most 24 moves per element, and the frames of the idle threads. */
  lemma WorkAtStart(x: System, lo: nat, n: nat)
    requires Starts(x, lo, n)
    ensures WorkLeft(x) == ReadyWork(n) + |x.s.stacks|
  {
    assert TotalWork(x.calls) == ReadyWork(n) by {
      assert x.calls[..0] == [];
    }
    OneFrameEach(x.s.stacks);
    hide TotalWork, D.Frames;
  }

  lemma {:induction false} OneFrameEach(ss: seq<seq<Frame>>)
    requires forall t :: 0 <= t < |ss| ==> |ss[t]| == 1
    ensures D.Frames(ss) == |ss|
  {
    if ss != [] {
      OneFrameEach(ss[1..]);
    }
  }
}
