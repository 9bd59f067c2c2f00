/**
 When the fork/join pool can deadlock, exactly. A function waits for the functions
 of every group that is joined above it on its stack; the pool can bring all its
 functions to their end if and only if these waits form no cycle and no function
 waits for a group with explicitly outstanding work.
 */
module ForkJoinDeadlock {
  import opened ForkJoinPool
  import opened ForkJoinSafety

  // ---------------------------------------------------------------------------
  // What can always move
  // ---------------------------------------------------------------------------

  /** No function waits for a group with explicitly outstanding work. */
  ghost predicate NoExplicitWaits(s: State) {
    forall t, i :: 0 <= t < |s.stacks| && 0 < i < |s.stacks[t]| && s.stacks[t][i].Join? && s.stacks[t][i - 1].Exec? ==>
      s.stacks[t][i].group < |s.explicitWork| && s.explicitWork[s.stacks[t][i].group] == 0
  }

  ghost predicate Unfinished(s: State) {
    s.pool.queue != [] || Live(s.stacks) != []
  }

  /** Steps that bring the submitted functions closer to their end. */
  predicate Productive(a: Action) {
    a.Take? || a.Return? || a.JoinReturn?
  }

  ghost predicate CanAdvance(s: State) {
    exists a :: Productive(a) && Enabled(s, a)
  }

  /** A function on top of its stack can return. */
  lemma TopFunctionReturns(s: State, t: nat)
    requires Inv(s) && t < |s.stacks| && s.stacks[t] != [] && Top(s, t).Exec?
    ensures CanAdvance(s)
  {
    RunningMeansPositive(s, t, |s.stacks[t]| - 1);
    PositiveMeansUsed(s.pool, s.stopped, Top(s, t).fn.group);
    hide StacksOk, Accounted, UseCounted, NoLostWakeup, WorkersStay, Live, GroupsOk, Conserved;
    assert s.awake[t];
    assert Productive(Return(t)) && Enabled(s, Return(t));
  }

  /** A thread at the top of a join whose group is done can leave it. */
  lemma TopJoinLeaves(s: State, t: nat)
    requires Inv(s) && t < |s.stacks| && s.stacks[t] != [] && Top(s, t).Join?
    requires Top(s, t).group < |s.pool.count| && s.pool.count[Top(s, t).group] == 0
    ensures CanAdvance(s)
  {
    hide StacksOk, Accounted, UseCounted, NoLostWakeup, WorkersStay, Live, GroupsOk, Conserved;
    assert s.awake[t];
    assert Productive(JoinReturn(t)) && Enabled(s, JoinReturn(t));
  }

  lemma TopFrame(s: State, t: nat)
    requires StacksOk(s.workers, s.stacks, s.owner, s.clock) && t < |s.stacks| && s.stacks[t] != []
    ensures FrameOk(s.workers, t, s.stacks[t], |s.stacks[t]| - 1, s.owner, s.clock)
  {
  }

  lemma QueuedMeansUsed(s: State)
    requires Inv(s) && s.pool.queue != []
    ensures s.pool.useCount > 0
  {
    hide StacksOk, SleepersWait, NoLostWakeup, WorkersStay, Live, Conserved, UseCounted;
    TallyMember(s.pool.queue[0].group, s.pool.queue);
    PositiveMeansUsed(s.pool, s.stopped, s.pool.queue[0].group);
  }

  /** While a function is queued, some thread can take one, finish one or leave a join. */
  lemma QueueAdvances(s: State)
    requires Inv(s) && s.pool.queue != []
    ensures CanAdvance(s)
  {
    hide Sized, StacksOk, Accounted, UseCounted, SleepersWait, WorkersStay, Live, GroupsOk, Conserved, CanAdvance, ComesBack;
    var t :| 0 <= t < |s.stacks| && t < |s.awake| && s.awake[t] && ComesBack(s.pool.count, s.stacks[t]);
    AlertAdvances(s, t);
  }

  lemma AlertAdvances(s: State, t: nat)
    requires Inv(s) && s.pool.queue != [] && t < |s.stacks| && t < |s.awake| && s.awake[t] && ComesBack(s.pool.count, s.stacks[t])
    ensures CanAdvance(s)
  {
    hide StacksOk, Accounted, UseCounted, SleepersWait, WorkersStay, Live, GroupsOk, Conserved, CanAdvance, NoLostWakeup, WaitsForWork;
    QueuedMeansUsed(s);
    TopFrame(s, t);
    var top := Top(s, t);
    if top.Exec? {
      TopFunctionReturns(s, t);
    } else if top.Join? && s.pool.count[top.group] == 0 {
      TopJoinLeaves(s, t);
    } else {
      ClientIsNotAlert(s, t);
      TakeAdvances(s, t);
    }
  }

  lemma ClientIsNotAlert(s: State, t: nat)
    requires Inv(s) && t < |s.stacks| && ComesBack(s.pool.count, s.stacks[t])
    ensures !Top(s, t).Client?
  {
    hide StacksOk, Accounted, UseCounted, SleepersWait, WorkersStay, Live, GroupsOk, Conserved, NoLostWakeup;
    TopFrame(s, t);
  }

  lemma TakeAdvances(s: State, t: nat)
    requires Enabled(s, Take(t))
    ensures CanAdvance(s)
  {
    assert Productive(Take(t));
  }

  lemma FrameAt(s: State, t: nat, i: nat)
    requires StacksOk(s.workers, s.stacks, s.owner, s.clock) && t < |s.stacks| && i < |s.stacks[t]|
    ensures FrameOk(s.workers, t, s.stacks[t], i, s.owner, s.clock) && Ordered(s.stacks[t])
  {
  }

  /** A step leaves the frames of a stack alone, except for the top one of the thread that takes it. */
  lemma StackStep(s: State, a: Action, t: nat)
    requires Enabled(s, a) && t < |s.stacks|
    ensures var stack, stacks' := s.stacks[t], Apply(s, a).stacks;
      && |stacks'| == |s.stacks|
      && (stack <= stacks'[t] || (a.t == t && stack != [] && match a
            case Exit(_) => Top(s, t).Loop?
            case Return(_) => Top(s, t).Exec? && stacks'[t] == stack[..|stack| - 1]
            case JoinReturn(_) => Enabled(s, a) && stacks'[t] == stack[..|stack| - 1]
            case _ => false))
  {
    hide WorkStarted, WorkFinished, Enqueued, CanFinish;
  }

  // ---------------------------------------------------------------------------
  // Waits
  // ---------------------------------------------------------------------------

  /** The function running in frame `i` of thread `t` cannot return before the join in frame `j` above it. */
  datatype Wait = Wait(t: nat, i: nat, j: nat)

  predicate IsWait(s: State, v: Wait) {
    v.t < |s.stacks| && v.i < v.j < |s.stacks[v.t]| && s.stacks[v.t][v.i].Exec? && s.stacks[v.t][v.j].Join?
  }

  /** `v` waits for the group of the function of `w`. */
  predicate WaitsFor(s: State, v: Wait, w: Wait)
    requires IsWait(s, v) && IsWait(s, w)
  {
    s.stacks[v.t][v.j].group == s.stacks[w.t][w.i].fn.group
  }

  predicate AreWaits(s: State, ws: seq<Wait>) {
    forall k :: 0 <= k < |ws| ==> IsWait(s, ws[k])
  }

  predicate WaitChain(s: State, ws: seq<Wait>) {
    && AreWaits(s, ws)
    && forall k :: 0 < k < |ws| ==> WaitsFor(s, ws[k - 1], ws[k])
  }

  /** Functions that wait for each other in a circle. */
  predicate WaitCycle(s: State, ws: seq<Wait>) {
    ws != [] && WaitChain(s, ws) && WaitsFor(s, ws[|ws| - 1], ws[0])
  }

  ghost predicate NoWaitCycle(s: State) {
    forall ws :: !WaitCycle(s, ws)
  }

  // ---------------------------------------------------------------------------
  // A cycle of waits never ends
  // ---------------------------------------------------------------------------

  /** A wait for a group with work outlives every step. */
  lemma WaitStays(s: State, a: Action, v: Wait)
    requires Enabled(s, a) && IsWait(s, v)
    requires FrameOk(s.workers, v.t, s.stacks[v.t], |s.stacks[v.t]| - 1, s.owner, s.clock)
    requires var g := s.stacks[v.t][v.j].group; g < |s.pool.count| && s.pool.count[g] > 0
    ensures var s' := Apply(s, a);
      && IsWait(s', v)
      && s'.stacks[v.t][v.i] == s.stacks[v.t][v.i] && s'.stacks[v.t][v.j] == s.stacks[v.t][v.j]
  {
    hide Apply;
    StackStep(s, a, v.t);
    var stack, stack' := s.stacks[v.t], Apply(s, a).stacks[v.t];
    if stack <= stack' {
      assert stack'[v.i] == stack[v.i] && stack'[v.j] == stack[v.j];
    } else {
      assert !a.Exit?;
      assert v.j < |stack| - 1;
    }
  }

  /** What a wait in a cycle waits for has a running function. */
  lemma CycleHasWork(s: State, ws: seq<Wait>, k: nat)
    requires Inv(s) && WaitCycle(s, ws) && k < |ws|
    ensures var g := s.stacks[ws[k].t][ws[k].j].group; g < |s.pool.count| && s.pool.count[g] > 0
  {
    hide Accounted, StacksOk, UseCounted, SleepersWait, WorkersStay, NoLostWakeup, Conserved, GroupsOk;
    var w := ws[if k + 1 < |ws| then k + 1 else 0];
    assert IsWait(s, w);
    assert WaitsFor(s, ws[k], w) by {
      if k + 1 < |ws| {
        assert WaitsFor(s, ws[(k + 1) - 1], ws[k + 1]);
      }
    }
    RunningMeansPositive(s, w.t, w.i);
  }

  lemma CycleWaitStays(s: State, a: Action, ws: seq<Wait>, k: nat)
    requires Inv(s) && Enabled(s, a) && WaitCycle(s, ws) && k < |ws|
    ensures var s', v := Apply(s, a), ws[k];
      && IsWait(s', v)
      && s'.stacks[v.t][v.i] == s.stacks[v.t][v.i] && s'.stacks[v.t][v.j] == s.stacks[v.t][v.j]
  {
    hide Enabled, Apply, FrameOk, Accounted, StacksOk, UseCounted, SleepersWait, WorkersStay, NoLostWakeup, Conserved, GroupsOk;
    CycleHasWork(s, ws, k);
    assert IsWait(s, ws[k]);
    TopFrame(s, ws[k].t);
    WaitStays(s, a, ws[k]);
  }

  /** No step of any thread ends a cycle of waits. */
  lemma StepKeepsCycle(s: State, a: Action, ws: seq<Wait>)
    requires Inv(s) && Enabled(s, a) && WaitCycle(s, ws)
    ensures WaitCycle(Apply(s, a), ws)
  {
    hide Inv, Enabled, Apply;
    forall k | 0 <= k < |ws|
      ensures IsWait(Apply(s, a), ws[k])
      ensures Apply(s, a).stacks[ws[k].t][ws[k].i] == s.stacks[ws[k].t][ws[k].i]
      ensures Apply(s, a).stacks[ws[k].t][ws[k].j] == s.stacks[ws[k].t][ws[k].j]
    {
      CycleWaitStays(s, a, ws, k);
    }
    forall k | 0 < k < |ws|
      ensures WaitsFor(Apply(s, a), ws[k - 1], ws[k])
    {
      assert IsWait(s, ws[k]) && WaitsFor(s, ws[k - 1], ws[k]);
    }
  }

  lemma CycleIsUnfinished(s: State, ws: seq<Wait>)
    requires WaitCycle(s, ws)
    ensures Unfinished(s)
  {
    hide Live;
    assert IsWait(s, ws[0]);
    LiveMember(s.stacks, s.stacks[ws[0].t][ws[0].i].fn);
  }

  /** Functions that wait for each other in a circle wait for ever, whatever the other threads do. */
  lemma {:induction false} WaitCycleNeverReturns(states: seq<State>, actions: seq<Action>, k: nat, m: nat, ws: seq<Wait>)
    requires IsRun(states, actions) && k <= m < |states| && WaitCycle(states[k], ws)
    ensures WaitCycle(states[m], ws) && Unfinished(states[m])
  {
    hide Inv, Apply, Enabled, Unfinished, WaitCycle;
    if k < m {
      WaitCycleNeverReturns(states, actions, k, m - 1, ws);
      RunInv(states, actions, m - 1);
      assert Enabled(states[m - 1], actions[m - 1]) && states[(m - 1) + 1] == Apply(states[m - 1], actions[m - 1]);
      hide IsRun;
      StepKeepsCycle(states[m - 1], actions[m - 1], ws);
    }
    hide IsRun;
    CycleIsUnfinished(states[m], ws);
  }

  // ---------------------------------------------------------------------------
  // A pool that cannot move has a cycle of waits
  // ---------------------------------------------------------------------------

  /** A group with work, nothing queued and no explicit work has a running function. */
  lemma RunningInGroup(s: State, g: nat) returns (t: nat, i: nat)
    requires Inv(s) && s.pool.queue == [] && g < |s.pool.count| && s.pool.count[g] > 0 && s.explicitWork[g] == 0
    ensures t < |s.stacks| && i < |s.stacks[t]| && s.stacks[t][i].Exec? && s.stacks[t][i].fn.group == g
  {
    hide StacksOk, UseCounted, NoLostWakeup, SleepersWait, WorkersStay, Live, Conserved;
    TallyMember(g, Live(s.stacks));
    var k :| 0 <= k < |Live(s.stacks)| && Live(s.stacks)[k].group == g;
    LiveMember(s.stacks, Live(s.stacks)[k]);
    t, i :| 0 <= t < |s.stacks| && 0 <= i < |s.stacks[t]| && s.stacks[t][i].Exec? && s.stacks[t][i].fn == Live(s.stacks)[k];
  }

  /** If the pool cannot move, the thread of a running function is blocked at its top in a join made by a function. */
  lemma StuckFunctionWaits(s: State, t: nat, i: nat)
    requires Inv(s) && !CanAdvance(s) && t < |s.stacks| && i < |s.stacks[t]| && s.stacks[t][i].Exec?
    ensures var top := |s.stacks[t]| - 1;
      && i < top && s.stacks[t][top].Join? && s.stacks[t][top - 1].Exec?
      && s.stacks[t][top].group < |s.pool.count| && s.pool.count[s.stacks[t][top].group] > 0
  {
    hide StacksOk, Accounted, UseCounted, NoLostWakeup, SleepersWait, WorkersStay, Live, GroupsOk, Conserved, CanAdvance;
    var top := |s.stacks[t]| - 1;
    FrameAt(s, t, i);
    FrameAt(s, t, top);
    match s.stacks[t][top]
    case Exec(_, _) =>
      TopFunctionReturns(s, t);
      assert false;
    case Join(g) =>
      FrameAt(s, t, top - 1);
      if s.pool.count[g] == 0 {
        TopJoinLeaves(s, t);
        assert false;
      }
    case Loop =>
      assert false;
    case Client =>
      assert false;
  }

  /** The wait at the top of a blocked thread leads to a wait at the top of another, or the same, thread. */
  lemma NextWait(s: State, v: Wait) returns (w: Wait)
    requires Inv(s) && !CanAdvance(s) && NoExplicitWaits(s) && s.pool.queue == []
    requires IsWait(s, v) && v.j == |s.stacks[v.t]| - 1
    ensures IsWait(s, w) && w.j == |s.stacks[w.t]| - 1 && WaitsFor(s, v, w)
  {
    hide Inv, CanAdvance;
    StuckFunctionWaits(s, v.t, v.i);
    var t, i := RunningInGroup(s, s.stacks[v.t][v.j].group);
    StuckFunctionWaits(s, t, i);
    w := Wait(t, i, |s.stacks[t]| - 1);
  }

  function Threads(n: nat): (ts: set<nat>)
    ensures forall t :: 0 <= t < n ==> t in ts
  {
    if n == 0 then {} else Threads(n - 1) + {n - 1}
  }

  /** The threads of the chain and the free ones are all there are. */
  ghost predicate Covers(s: State, ws: seq<Wait>, free: set<nat>) {
    forall t :: 0 <= t < |s.stacks| ==> t in free || exists k :: 0 <= k < |ws| && ws[k].t == t
  }

  /** Following the waits of a pool that cannot move comes back to a thread it has seen. */
  lemma {:induction false} FindCycle(s: State, chain: seq<Wait>, free: set<nat>) returns (ws: seq<Wait>)
    requires Inv(s) && !CanAdvance(s) && NoExplicitWaits(s) && s.pool.queue == []
    requires chain != [] && WaitChain(s, chain) && Covers(s, chain, free)
    requires forall k :: 0 <= k < |chain| ==> chain[k].j == |s.stacks[chain[k].t]| - 1
    ensures WaitCycle(s, ws)
    decreases free
  {
    hide Inv, CanAdvance, NoExplicitWaits;
    var last := |chain| - 1;
    var w := NextWait(s, chain[last]);
    if k :| 0 <= k < |chain| && chain[k].t == w.t {
      ws := CloseCycle(s, chain, k, w);
    } else {
      assert w.t in free;
      var longer := chain + [w];
      assert Covers(s, longer, free - {w.t}) by {
        forall t | 0 <= t < |s.stacks| && t !in free - {w.t}
          ensures exists k :: 0 <= k < |longer| && longer[k].t == t
        {
          if t == w.t {
            assert longer[|chain|].t == t;
          } else {
            var k :| 0 <= k < |chain| && chain[k].t == t;
            assert longer[k].t == t;
          }
        }
      }
      assert WaitChain(s, longer) by {
        forall k | 0 < k < |longer|
          ensures WaitsFor(s, longer[k - 1], longer[k])
        {
          if k < |chain| {
            assert WaitsFor(s, chain[k - 1], chain[k]);
          }
        }
      }
      ws := FindCycle(s, longer, free - {w.t});
    }
  }

  /** A chain whose end waits for a function of thread `chain[k].t` contains a cycle. */
  lemma CloseCycle(s: State, chain: seq<Wait>, k: nat, w: Wait) returns (ws: seq<Wait>)
    requires k < |chain| && WaitChain(s, chain) && IsWait(s, w) && WaitsFor(s, chain[|chain| - 1], w)
    requires w.t == chain[k].t && w.j == chain[k].j
    ensures WaitCycle(s, ws)
  {
    ws := [w] + chain[k + 1..];
    assert IsWait(s, chain[k]);
    forall m | 0 < m < |ws|
      ensures WaitsFor(s, ws[m - 1], ws[m])
    {
      assert WaitsFor(s, chain[k + m - 1], chain[k + m]);
    }
  }

  /** Without cycles and explicit waits, some thread can take, finish or stop waiting for an unfinished function. */
  lemma Progress(s: State)
    requires Inv(s) && NoWaitCycle(s) && NoExplicitWaits(s) && Unfinished(s)
    ensures CanAdvance(s)
  {
    hide StacksOk, Accounted, UseCounted, NoLostWakeup, SleepersWait, WorkersStay, Live, GroupsOk, Conserved, CanAdvance, WaitCycle, NoExplicitWaits;
    if s.pool.queue != [] {
      QueueAdvances(s);
    } else if !CanAdvance(s) {
      var f := Live(s.stacks)[0];
      LiveMember(s.stacks, f);
      var t, i :| 0 <= t < |s.stacks| && 0 <= i < |s.stacks[t]| && s.stacks[t][i].Exec? && s.stacks[t][i].fn == f;
      StuckFunctionWaits(s, t, i);
      var v := Wait(t, i, |s.stacks[t]| - 1);
      assert Covers(s, [v], Threads(|s.stacks|));
      var ws := FindCycle(s, [v], Threads(|s.stacks|));
      assert false;
    }
  }

  // ---------------------------------------------------------------------------
  // Exactly when the pool can finish
  // ---------------------------------------------------------------------------

  function Frames(ss: seq<seq<Frame>>): nat {
    if ss == [] then 0 else |ss[0]| + Frames(ss[1..])
  }

  lemma {:induction false} FramesUpdate(ss: seq<seq<Frame>>, t: nat, stack: seq<Frame>)
    requires t < |ss|
    ensures Frames(ss[t := stack]) == Frames(ss) - |ss[t]| + |stack|
  {
    if t > 0 {
      FramesUpdate(ss[1..], t - 1, stack);
      assert ss[t := stack][1..] == ss[1..][t - 1 := stack];
    } else {
      assert ss[t := stack][1..] == ss[1..];
    }
  }

  /** Work left: a queued function is taken and then returns. */
  function WorkLeft(s: State): nat {
    2 * |s.pool.queue| + Frames(s.stacks)
  }

  lemma ProductiveDecreases(s: State, a: Action)
    requires Enabled(s, a) && Productive(a)
    ensures WorkLeft(Apply(s, a)) < WorkLeft(s)
  {
    hide Frames;
    FramesUpdate(s.stacks, a.t, Apply(s, a).stacks[a.t]);
    assert Apply(s, a).stacks == s.stacks[a.t := Apply(s, a).stacks[a.t]];
  }

  /** Productive steps make no waits. */
  lemma WaitsWereThere(s: State, a: Action, v: Wait)
    requires Enabled(s, a) && Productive(a) && IsWait(Apply(s, a), v)
    ensures var s' := Apply(s, a);
      && IsWait(s, v)
      && s'.stacks[v.t][v.i] == s.stacks[v.t][v.i] && s'.stacks[v.t][v.j] == s.stacks[v.t][v.j]
  {
    hide WorkFinished, CanFinish;
  }

  lemma ProductiveMakesNoCycle(s: State, a: Action)
    requires Enabled(s, a) && Productive(a) && NoWaitCycle(s)
    ensures NoWaitCycle(Apply(s, a))
  {
    hide Enabled, Apply;
    forall ws: seq<Wait> | WaitCycle(Apply(s, a), ws)
      ensures WaitCycle(s, ws)
    {
      forall k | 0 <= k < |ws|
        ensures IsWait(s, ws[k])
        ensures Apply(s, a).stacks[ws[k].t][ws[k].i] == s.stacks[ws[k].t][ws[k].i]
        ensures Apply(s, a).stacks[ws[k].t][ws[k].j] == s.stacks[ws[k].t][ws[k].j]
      {
        assert IsWait(Apply(s, a), ws[k]);
        WaitsWereThere(s, a, ws[k]);
      }
      forall k | 0 < k < |ws|
        ensures WaitsFor(s, ws[k - 1], ws[k])
      {
        assert WaitsFor(Apply(s, a), ws[k - 1], ws[k]);
      }
    }
  }

  lemma ProductiveMakesNoExplicitWait(s: State, a: Action)
    requires Enabled(s, a) && Productive(a) && NoExplicitWaits(s)
    ensures NoExplicitWaits(Apply(s, a))
  {
    var s' := Apply(s, a);
    forall t, i | 0 <= t < |s'.stacks| && 0 < i < |s'.stacks[t]| && s'.stacks[t][i].Join? && s'.stacks[t][i - 1].Exec?
      ensures s'.stacks[t][i].group < |s'.explicitWork| && s'.explicitWork[s'.stacks[t][i].group] == 0
    {
      assert s'.stacks[t][i] == s.stacks[t][i] && s'.stacks[t][i - 1] == s.stacks[t][i - 1];
    }
  }

  /** `actions` are productive steps that lead from `s` to `s'`. */
  ghost predicate Finishes(s: State, actions: seq<Action>, s': State)
    decreases |actions|
  {
    if actions == [] then s == s' else
      Productive(actions[0]) && Enabled(s, actions[0]) && Finishes(Apply(s, actions[0]), actions[1..], s')
  }

  ghost predicate CanFinishAll(s: State) {
    exists actions, s' :: Finishes(s, actions, s') && !Unfinished(s')
  }

  /** Without cycles and explicit waits the threads can run every submitted function to its end. */
  lemma {:induction false} CanAlwaysFinish(s: State) returns (actions: seq<Action>, s': State)
    requires Inv(s) && NoWaitCycle(s) && NoExplicitWaits(s)
    ensures Finishes(s, actions, s') && !Unfinished(s')
    decreases WorkLeft(s)
  {
    hide Inv, NoWaitCycle, NoExplicitWaits, Unfinished, Enabled, Apply, WorkLeft;
    if Unfinished(s) {
      Progress(s);
      var a :| Productive(a) && Enabled(s, a);
      ProductiveDecreases(s, a);
      ProductiveMakesNoCycle(s, a);
      ProductiveMakesNoExplicitWait(s, a);
      KeepInv(s, a);
      var rest, last := CanAlwaysFinish(Apply(s, a));
      actions, s' := [a] + rest, last;
    } else {
      actions, s' := [], s;
    }
  }

  lemma {:induction false} CycleOutlastsSteps(s: State, actions: seq<Action>, s': State, ws: seq<Wait>)
    requires Inv(s) && WaitCycle(s, ws) && Finishes(s, actions, s')
    ensures Unfinished(s')
    decreases |actions|
  {
    hide Inv, WaitCycle, Unfinished, Enabled, Apply;
    if actions == [] {
      CycleIsUnfinished(s, ws);
    } else {
      StepKeepsCycle(s, actions[0], ws);
      KeepInv(s, actions[0]);
      CycleOutlastsSteps(Apply(s, actions[0]), actions[1..], s', ws);
    }
  }

  /** The function below frame `i` of thread `t` waits there for explicit work. */
  predicate ExplicitWait(s: State, t: nat, i: nat) {
    && t < |s.stacks| && 0 < i < |s.stacks[t]| && s.stacks[t][i - 1].Exec? && s.stacks[t][i].Join?
    && s.stacks[t][i].group < |s.explicitWork| && s.explicitWork[s.stacks[t][i].group] > 0
  }

  lemma ExplicitWaitHasWork(s: State, t: nat, i: nat)
    requires Inv(s) && ExplicitWait(s, t, i)
    ensures var g := s.stacks[t][i].group; g < |s.pool.count| && s.pool.count[g] > 0
  {
    hide StacksOk, UseCounted, SleepersWait, WorkersStay, NoLostWakeup, Conserved, GroupsOk, Live;
  }

  /** Only the end of the explicit work ends such a wait. */
  lemma StepKeepsExplicitWait(s: State, a: Action, t: nat, i: nat)
    requires Inv(s) && Enabled(s, a) && !a.EndWork? && ExplicitWait(s, t, i)
    ensures ExplicitWait(Apply(s, a), t, i)
  {
    hide FrameOk, Accounted, StacksOk, UseCounted, SleepersWait, WorkersStay, NoLostWakeup, Conserved, GroupsOk;
    ExplicitWaitHasWork(s, t, i);
    TopFrame(s, t);
    hide Inv;
    WaitStays(s, a, Wait(t, i - 1, i));
    ExplicitWorkStays(s, a, s.stacks[t][i].group);
  }

  lemma ExplicitWorkStays(s: State, a: Action, g: nat)
    requires Enabled(s, a) && !a.EndWork? && g < |s.explicitWork|
    ensures g < |Apply(s, a).explicitWork| && Apply(s, a).explicitWork[g] >= s.explicitWork[g]
  {
    hide WorkStarted, WorkFinished, Enqueued, CanFinish;
  }

  lemma {:induction false} ExplicitWaitOutlastsSteps(s: State, actions: seq<Action>, s': State, t: nat, i: nat)
    requires Inv(s) && ExplicitWait(s, t, i) && Finishes(s, actions, s')
    ensures Unfinished(s')
    decreases |actions|
  {
    hide Inv, ExplicitWait, Unfinished, Enabled, Apply;
    if actions == [] {
      ExplicitWaitIsUnfinished(s, t, i);
    } else {
      StepKeepsExplicitWait(s, actions[0], t, i);
      KeepInv(s, actions[0]);
      ExplicitWaitOutlastsSteps(Apply(s, actions[0]), actions[1..], s', t, i);
    }
  }

  lemma ExplicitWaitIsUnfinished(s: State, t: nat, i: nat)
    requires ExplicitWait(s, t, i)
    ensures Unfinished(s)
  {
    hide Live;
    LiveMember(s.stacks, s.stacks[t][i - 1].fn);
  }

  lemma ExplicitWaitExists(s: State) returns (t: nat, i: nat)
    requires Inv(s) && !NoExplicitWaits(s)
    ensures ExplicitWait(s, t, i)
  {
    hide StacksOk, Accounted, UseCounted, SleepersWait, WorkersStay, NoLostWakeup, Conserved, GroupsOk, Live;
    t, i :| 0 <= t < |s.stacks| && 0 < i < |s.stacks[t]| && s.stacks[t][i].Join? && s.stacks[t][i - 1].Exec? &&
      !(s.stacks[t][i].group < |s.explicitWork| && s.explicitWork[s.stacks[t][i].group] == 0);
    FrameAt(s, t, i);
  }

  /**
   The pool can bring every submitted function to its end if and only if no
   functions wait for each other in a circle and none waits for explicit work.
   */
  lemma CanFinishIff(s: State)
    requires Inv(s)
    ensures CanFinishAll(s) <==> NoWaitCycle(s) && NoExplicitWaits(s)
  {
    hide Inv, WaitCycle, NoExplicitWaits, Unfinished, Finishes;
    if NoWaitCycle(s) && NoExplicitWaits(s) {
      var actions, s' := CanAlwaysFinish(s);
    } else if CanFinishAll(s) {
      var actions, s' :| Finishes(s, actions, s') && !Unfinished(s');
      if NoExplicitWaits(s) {
        var ws :| WaitCycle(s, ws);
        CycleOutlastsSteps(s, actions, s', ws);
      } else {
        var t, i := ExplicitWaitExists(s);
        ExplicitWaitOutlastsSteps(s, actions, s', t, i);
      }
    }
  }

  /** The same for every state of every run. */
  lemma PoolCanFinishIff(states: seq<State>, actions: seq<Action>, i: nat)
    requires IsRun(states, actions) && i < |states|
    ensures CanFinishAll(states[i]) <==> NoWaitCycle(states[i]) && NoExplicitWaits(states[i])
  {
    RunInv(states, actions, i);
    hide Inv, IsRun, CanFinishAll, NoWaitCycle, NoExplicitWaits;
    CanFinishIff(states[i]);
  }

  // ---------------------------------------------------------------------------
  // A discipline that excludes cycles
  // ---------------------------------------------------------------------------

  /** Each group is joined only by the function that created it; clients may join any group. */
  ghost predicate JoinedByCreator(s: State) {
    forall t, i :: 0 <= t < |s.stacks| && 0 < i < |s.stacks[t]| && s.stacks[t][i].Join? && s.stacks[t][i - 1].Exec? ==>
      s.stacks[t][i].group < |s.owner| && s.owner[s.stacks[t][i].group] == s.stacks[t][i - 1].stamp
  }

  /** Every wait of a cycle waits for functions that started later. */
  lemma WaitGoesUp(s: State, v: Wait, w: Wait)
    requires Inv(s) && JoinedByCreator(s) && IsWait(s, v) && IsWait(s, w) && WaitsFor(s, v, w)
    ensures s.stacks[v.t][v.i].stamp < s.stacks[w.t][w.i].stamp
  {
    hide StacksOk, Accounted, UseCounted, NoLostWakeup, SleepersWait, WorkersStay, Live, GroupsOk, Conserved;
    FrameAt(s, v.t, v.i);
    FrameAt(s, v.t, v.j);
    FrameAt(s, v.t, v.j - 1);
    FrameAt(s, w.t, w.i);
    assert s.stacks[v.t][v.j - 1].Exec?;
  }

  lemma {:induction false} ChainGoesUp(s: State, ws: seq<Wait>, k: nat)
    requires Inv(s) && JoinedByCreator(s) && WaitChain(s, ws) && k < |ws|
    ensures s.stacks[ws[0].t][ws[0].i].stamp <= s.stacks[ws[k].t][ws[k].i].stamp
  {
    hide Inv, JoinedByCreator;
    assert IsWait(s, ws[k]);
    if k > 0 {
      ChainGoesUp(s, ws, k - 1);
      assert WaitsFor(s, ws[k - 1], ws[k]);
      WaitGoesUp(s, ws[k - 1], ws[k]);
    }
  }

  /** If functions join only groups they created, no functions wait for each other in a circle. */
  lemma CreatorsMakeNoCycle(s: State)
    requires Inv(s) && JoinedByCreator(s)
    ensures NoWaitCycle(s)
  {
    hide Inv, JoinedByCreator;
    forall ws: seq<Wait> | WaitCycle(s, ws)
      ensures false
    {
      ChainGoesUp(s, ws, |ws| - 1);
      assert IsWait(s, ws[0]) && IsWait(s, ws[|ws| - 1]);
      WaitGoesUp(s, ws[|ws| - 1], ws[0]);
    }
  }

  /** In this step no function joins a group that it did not create. */
  predicate Disciplined(s: State, a: Action) {
    a.StartJoin? && InCode(s, a.t) && Top(s, a.t).Exec? ==> a.g < |s.owner| && s.owner[a.g] == Top(s, a.t).stamp
  }

  lemma StepKeepsDiscipline(s: State, a: Action)
    requires Enabled(s, a) && Disciplined(s, a) && JoinedByCreator(s)
    ensures JoinedByCreator(Apply(s, a))
  {
    hide WorkStarted, WorkFinished, Enqueued, CanFinish;
    var s' := Apply(s, a);
    assert |s.owner| <= |s'.owner| && forall g :: 0 <= g < |s.owner| ==> s'.owner[g] == s.owner[g];
    forall t, i | 0 <= t < |s'.stacks| && 0 < i < |s'.stacks[t]| && s'.stacks[t][i].Join? && s'.stacks[t][i - 1].Exec?
      ensures s'.stacks[t][i].group < |s'.owner| && s'.owner[s'.stacks[t][i].group] == s'.stacks[t][i - 1].stamp
    {
      if i < |s.stacks[t]| {
        assert s'.stacks[t][i] == s.stacks[t][i] && s'.stacks[t][i - 1] == s.stacks[t][i - 1];
      }
    }
  }

  lemma {:induction false} RunKeepsDiscipline(states: seq<State>, actions: seq<Action>, i: nat)
    requires IsRun(states, actions) && i < |states|
    requires forall k :: 0 <= k < |actions| ==> Disciplined(states[k], actions[k])
    ensures JoinedByCreator(states[i])
  {
    hide Initial, Apply, Enabled, JoinedByCreator, Disciplined;
    if i == 0 {
      InitialDiscipline(states[0]);
    } else {
      RunKeepsDiscipline(states, actions, i - 1);
      assert Enabled(states[i - 1], actions[i - 1]) && states[(i - 1) + 1] == Apply(states[i - 1], actions[i - 1]);
      StepKeepsDiscipline(states[i - 1], actions[i - 1]);
    }
  }

  lemma InitialDiscipline(s: State)
    requires Initial(s)
    ensures JoinedByCreator(s)
  {
  }

  /**
   A pool whose functions join only groups they created can always finish, unless
   a function waits for explicit work; code outside the pool may join anything.
   */
  lemma NoDeadlock(states: seq<State>, actions: seq<Action>, i: nat)
    requires IsRun(states, actions) && i < |states|
    requires forall k :: 0 <= k < |actions| ==> Disciplined(states[k], actions[k])
    ensures CanFinishAll(states[i]) <==> NoExplicitWaits(states[i])
  {
    RunInv(states, actions, i);
    RunKeepsDiscipline(states, actions, i);
    hide Inv, IsRun, CanFinishAll, NoWaitCycle, NoExplicitWaits, JoinedByCreator, Disciplined;
    CreatorsMakeNoCycle(states[i]);
    CanFinishIff(states[i]);
  }

  // ---------------------------------------------------------------------------
  // Pools that deadlock
  // ---------------------------------------------------------------------------

  const SELF: Fn := Fn(0, 0)

  /** One worker and one client; the function submitted to group 0 joins group 0. */
  function SelfJoinState(pool: Pool, worker: seq<Frame>, client: seq<Frame>, awake: seq<bool>, clock: nat): State {
    State(pool, 1, [worker, client], awake, false, [0], [0], clock, [SELF], [])
  }

  lemma ExtendRun(states: seq<State>, actions: seq<Action>, a: Action, s: State)
    requires IsRun(states, actions) && Enabled(states[|states| - 1], a) && s == Apply(states[|states| - 1], a)
    ensures IsRun(states + [s], actions + [a])
  {
    hide Enabled, Apply, Initial;
    var n := |actions|;
    forall i | 0 <= i < n + 1
      ensures Enabled((states + [s])[i], (actions + [a])[i]) && (states + [s])[i + 1] == Apply((states + [s])[i], (actions + [a])[i])
    {
      if i < n {
        assert Enabled(states[i], actions[i]) && states[i + 1] == Apply(states[i], actions[i]);
      }
    }
  }

  /** The client creates group 0 and posts the function. */
  lemma SelfJoinPosted() returns (states: seq<State>, actions: seq<Action>)
    ensures IsRun(states, actions) && |states| > 0
    ensures states[|states| - 1] == SelfJoinState(Pool([SELF], 2, [1]), [Loop], [Client], [true, true], 0)
  {
    var s0 := State(Pool([], 1, []), 1, [[Loop], [Client]], [true, true], false, [], [], 0, [], []);
    var s1 := s0.(pool := Pool([], 1, [0]), explicitWork := [0], owner := [0]);
    var s2 := SelfJoinState(Pool([SELF], 2, [1]), [Loop], [Client], [true, true], 0);
    assert IsRun([s0], []);
    hide IsRun, Initial;
    assert Apply(s0, NewGroup(1)) == s1;
    ExtendRun([s0], [], NewGroup(1), s1);
    assert Apply(s1, Post(1, 0, 0)) == s2;
    ExtendRun([s0] + [s1], [] + [NewGroup(1)], Post(1, 0, 0), s2);
    states, actions := [s0] + [s1] + [s2], [] + [NewGroup(1)] + [Post(1, 0, 0)];
  }

  /** The worker takes it. */
  lemma SelfJoinStarts() returns (states: seq<State>, actions: seq<Action>)
    ensures IsRun(states, actions) && |states| > 0
    ensures states[|states| - 1] == SelfJoinState(Pool([], 2, [1]), [Loop, Exec(SELF, 1)], [Client], [true, true], 1)
  {
    hide IsRun;
    states, actions := SelfJoinPosted();
    var s := states[|states| - 1];
    var s' := SelfJoinState(Pool([], 2, [1]), [Loop, Exec(SELF, 1)], [Client], [true, true], 1);
    assert s.pool.queue[1..] == [] && s.stacks[0] + [Exec(SELF, 1)] == s'.stacks[0];
    assert Apply(s, Take(0)) == s';
    ExtendRun(states, actions, Take(0), s');
    states, actions := states + [s'], actions + [Take(0)];
  }

  /** A thread running code joins a group with work, finds the queue empty and blocks. */
  lemma JoinAndSleep(states: seq<State>, actions: seq<Action>, t: nat, g: nat) returns (states': seq<State>, actions': seq<Action>)
    requires IsRun(states, actions) && |states| > 0
    requires var s := states[|states| - 1];
      InCode(s, t) && g < |s.pool.count| && s.pool.count[g] > 0 && s.pool.queue == []
    ensures IsRun(states', actions') && |states'| > 0
    ensures var s := states[|states| - 1];
      states'[|states'| - 1] == s.(stacks := s.stacks[t := s.stacks[t] + [Join(g)]], awake := s.awake[t := false])
  {
    hide IsRun;
    var s := states[|states| - 1];
    var s1 := Apply(s, StartJoin(t, g));
    ExtendRun(states, actions, StartJoin(t, g), s1);
    ExtendRun(states + [s1], actions + [StartJoin(t, g)], Sleep(t), Apply(s1, Sleep(t)));
    states' := states + [s1] + [Apply(s1, Sleep(t))];
    actions' := actions + [StartJoin(t, g)] + [Sleep(t)];
  }

  /** Functions are unfinished and every thread is blocked with nobody left to notify it. */
  ghost predicate Deadlocked(s: State) {
    Unfinished(s) && forall a :: Enabled(s, a) ==> a.SpuriousWake?
  }

  lemma BlockedThreads(s: State)
    requires |s.stacks| == |s.awake| == 2 && !s.awake[0] && !s.awake[1] && |s.stacks[0]| > 1 && s.stacks[0][1].Exec?
    ensures Deadlocked(s)
  {
    hide Live;
    LiveMember(s.stacks, s.stacks[0][1].fn);
  }

  /**
   A function that joins its own group deadlocks the pool: this run ends with
   every thread blocked while the function is unfinished.
   */
  lemma SelfJoinDeadlocks() returns (states: seq<State>, actions: seq<Action>)
    ensures IsRun(states, actions) && |states| > 0
    ensures var s := states[|states| - 1]; Deadlocked(s) && NoExplicitWaits(s) && WaitCycle(s, [Wait(0, 1, 2)])
  {
    hide IsRun, Deadlocked;
    states, actions := SelfJoinStarts();
    states, actions := JoinAndSleep(states, actions, 0, 0);
    states, actions := JoinAndSleep(states, actions, 1, 0);
    var s := states[|states| - 1];
    assert s.stacks[0] == [Loop, Exec(SELF, 1), Join(0)] && s.stacks[1] == [Client, Join(0)];
    BlockedThreads(s);
  }

  /** The same with a function that joins a group it has created itself, but leaves explicit work of it outstanding. */
  lemma ExplicitWorkDeadlocks() returns (states: seq<State>, actions: seq<Action>)
    ensures IsRun(states, actions) && |states| > 0
    ensures var s := states[|states| - 1]; Deadlocked(s) && JoinedByCreator(s) && s.explicitWork == [0, 1]
  {
    hide IsRun, Deadlocked;
    states, actions := SelfJoinStarts();
    states, actions := OpenGroup(states, actions);
    states, actions := JoinAndSleep(states, actions, 0, 1);
    states, actions := JoinAndSleep(states, actions, 1, 0);
    var s := states[|states| - 1];
    assert s.stacks[0] == [Loop, Exec(SELF, 1), Join(1)] && s.stacks[1] == [Client, Join(0)];
    BlockedThreads(s);
  }

  /** The running function creates group 1 and announces work for it. */
  lemma OpenGroup(states: seq<State>, actions: seq<Action>) returns (states': seq<State>, actions': seq<Action>)
    requires IsRun(states, actions) && |states| > 0
    requires states[|states| - 1] == SelfJoinState(Pool([], 2, [1]), [Loop, Exec(SELF, 1)], [Client], [true, true], 1)
    ensures IsRun(states', actions') && |states'| > 0
    ensures states'[|states'| - 1] == states[|states| - 1].(pool := Pool([], 3, [1, 1]), explicitWork := [0, 1], owner := [0, 1])
  {
    hide IsRun;
    var s := states[|states| - 1];
    var s1 := s.(pool := Pool([], 2, [1, 0]), explicitWork := [0, 0], owner := [0, 1]);
    var s2 := s.(pool := Pool([], 3, [1, 1]), explicitWork := [0, 1], owner := [0, 1]);
    assert Apply(s, NewGroup(0)) == s1;
    ExtendRun(states, actions, NewGroup(0), s1);
    assert Apply(s1, BeginWork(0, 1)) == s2;
    ExtendRun(states + [s1], actions + [NewGroup(0)], BeginWork(0, 1), s2);
    states', actions' := states + [s1] + [s2], actions + [NewGroup(0)] + [BeginWork(0, 1)];
  }
}
