/**
 What the fork/join pool promises over whole runs: no wake-up is lost, a join
 returns only after its group has finished, workers leave only a drained pool,
 and every function runs exactly once.
 */
module ForkJoinTheorems {
  import opened ForkJoinPool
  import opened ForkJoinSafety

  // ---------------------------------------------------------------------------
  // Safety
  // ---------------------------------------------------------------------------

  /** While functions are queued, an awake worker or an awake thread in a join with open work exists. */
  lemma QueueHasAwakeThread(states: seq<State>, actions: seq<Action>, i: nat)
    requires IsRun(states, actions) && i < |states| && states[i].pool.queue != []
    ensures var s := states[i];
      exists t :: 0 <= t < |s.stacks| == |s.awake| && s.awake[t] && s.stacks[t] != [] &&
        (s.stacks[t][0].Loop? || WaitsForWork(s.pool.count, s.stacks[t]))
  {
    RunInv(states, actions, i);
    hide StacksOk, Conserved, Accounted, SleepersWait, UseCounted, IsRun, WaitsForWork;
    var s := states[i];
    var t :| 0 <= t < |s.stacks| && t < |s.awake| && s.awake[t] && ComesBack(s.pool.count, s.stacks[t]);
  }

  /** Work accounting, for every group of every state of every run. */
  lemma WorkAccounting(states: seq<State>, actions: seq<Action>, i: nat)
    requires IsRun(states, actions) && i < |states|
    ensures var s := states[i];
      && |s.explicitWork| == |s.pool.count|
      && (forall g :: 0 <= g < |s.pool.count| ==>
            s.pool.count[g] == Tally(g, s.pool.queue) + Tally(g, Live(s.stacks)) + s.explicitWork[g])
      && s.pool.useCount == (if s.stopped then 0 else 1) + Positives(s.pool.count)
  {
    RunInv(states, actions, i);
    hide IsRun;
  }

  /** join returns only after every function submitted to its group has finished. */
  lemma JoinReturnsAfterGroup(states: seq<State>, actions: seq<Action>, i: nat, f: Fn)
    requires IsRun(states, actions) && i < |actions| && actions[i].JoinReturn?
    requires f in states[i].submitted
    requires Enabled(states[i], actions[i]) && f.group == Top(states[i], actions[i].t).group
    ensures f in states[i].finished && f !in states[i].pool.queue && f !in Live(states[i].stacks)
  {
    RunInv(states, actions, i);
    GroupDone(states[i], f);
  }

  /** A submitted function whose group has no work left has finished. */
  lemma GroupDone(s: State, f: Fn)
    requires Inv(s) && f in s.submitted && f.group < |s.pool.count| && s.pool.count[f.group] == 0
    ensures f in s.finished && f !in s.pool.queue && f !in Live(s.stacks)
  {
    hide StacksOk, SleepersWait, UseCounted, NoLostWakeup, WorkersStay, Live, GroupsOk;
    TallyMember(f.group, s.pool.queue);
    TallyMember(f.group, Live(s.stacks));
    assert f in multiset(s.submitted);
    assert f in multiset(s.pool.queue) + multiset(Live(s.stacks)) + multiset(s.finished);
  }

  /** A worker leaves its loop only when the pool is stopped and every submitted function has finished. */
  lemma WorkersLeaveDrainedPool(states: seq<State>, actions: seq<Action>, i: nat)
    requires IsRun(states, actions) && i < |actions| && actions[i].Exit?
    ensures states[i].stopped && states[i].pool.queue == [] && Live(states[i].stacks) == []
    ensures multiset(states[i].finished) == multiset(states[i].submitted)
  {
    RunInv(states, actions, i);
    assert Enabled(states[i], actions[i]);
    UnusedIsDrained(states[i]);
  }

  /** Every function runs at most once, and is never queued, running and finished at the same time. */
  lemma RunsAtMostOnce(states: seq<State>, actions: seq<Action>, i: nat, f: Fn)
    requires IsRun(states, actions) && i < |states|
    ensures multiset(states[i].pool.queue)[f] + multiset(Live(states[i].stacks))[f] + multiset(states[i].finished)[f]
            == if f in states[i].submitted then 1 else 0
  {
    RunInv(states, actions, i);
    hide StacksOk, Accounted, SleepersWait, UseCounted, NoLostWakeup, WorkersStay, Live, GroupsOk, IsRun;
    var s := states[i];
    Distinct(s.submitted, f);
    assert (multiset(s.pool.queue) + multiset(Live(s.stacks)) + multiset(s.finished))[f] == multiset(s.submitted)[f];
  }

  lemma {:induction false} Distinct(fs: seq<Fn>, f: Fn)
    requires forall i :: 0 <= i < |fs| ==> fs[i].id == i
    ensures multiset(fs)[f] == if f in fs then 1 else 0
  {
    if fs != [] {
      var n := |fs| - 1;
      assert fs == fs[..n] + [fs[n]];
      Distinct(fs[..n], f);
    }
  }

  // ---------------------------------------------------------------------------
  // The queue
  // ---------------------------------------------------------------------------

  /** A dispatched function runs on the thread that dispatched it exactly when more than 16 functions per worker are queued; else it is queued last. */
  lemma DispatchDecides(s: State, t: nat, g: nat, w: nat)
    requires Enabled(s, Dispatch(t, g, w))
    ensures var s', f := Apply(s, Dispatch(t, g, w)), Fn(|s.submitted|, g);
      && s'.submitted == s.submitted + [f]
      && if |s.pool.queue| > 16 * s.workers
         then s'.pool.queue == s.pool.queue && s'.stacks == s.stacks[t := s.stacks[t] + [Exec(f, s.clock + 1)]]
         else s'.pool.queue == s.pool.queue + [f] && s'.stacks == s.stacks
  {
  }

  lemma StepKeepsQueueShort(s: State, a: Action)
    requires Enabled(s, a) && !a.Post? && |s.pool.queue| <= 16 * s.workers + 1
    ensures Apply(s, a).workers == s.workers && |Apply(s, a).pool.queue| <= 16 * s.workers + 1
  {
  }

  /** Without posts the queue never grows beyond the limit at which functions are run inline. */
  lemma {:induction false} QueueStaysShort(states: seq<State>, actions: seq<Action>, i: nat)
    requires IsRun(states, actions) && i < |states| && forall k :: 0 <= k < |actions| ==> !actions[k].Post?
    ensures states[i].workers == states[0].workers && |states[i].pool.queue| <= 16 * states[0].workers + 1
  {
    hide Enabled, Apply;
    if i > 0 {
      QueueStaysShort(states, actions, i - 1);
      assert Enabled(states[i - 1], actions[i - 1]) && states[(i - 1) + 1] == Apply(states[i - 1], actions[i - 1]);
      hide IsRun;
      StepKeepsQueueShort(states[i - 1], actions[i - 1]);
    }
  }

  /** Functions are queued in the order in which they were submitted. */
  ghost predicate InOrder(queue: seq<Fn>, submitted: nat) {
    && (forall i :: 0 <= i < |queue| ==> queue[i].id < submitted)
    && (forall i, j :: 0 <= i < j < |queue| ==> queue[i].id < queue[j].id)
  }

  lemma StepKeepsOrder(s: State, a: Action)
    requires Enabled(s, a) && InOrder(s.pool.queue, |s.submitted|)
    ensures InOrder(Apply(s, a).pool.queue, |Apply(s, a).submitted|)
  {
    hide Active, Top, LoopHolds, CanFinish, CanPick, AwakeAfterFinish, Loaded;
    var queue, queue' := s.pool.queue, Apply(s, a).pool.queue;
    assert queue' == queue || (queue != [] && queue' == queue[1..]) || queue' == queue + [Fn(|s.submitted|, a.g)];
    assert |Apply(s, a).submitted| >= |s.submitted|;
  }

  lemma {:induction false} RunKeepsOrder(states: seq<State>, actions: seq<Action>, i: nat)
    requires IsRun(states, actions) && i < |states|
    ensures InOrder(states[i].pool.queue, |states[i].submitted|)
  {
    hide Enabled, Apply;
    if i > 0 {
      RunKeepsOrder(states, actions, i - 1);
      assert Enabled(states[i - 1], actions[i - 1]) && states[(i - 1) + 1] == Apply(states[i - 1], actions[i - 1]);
      hide IsRun, InOrder;
      StepKeepsOrder(states[i - 1], actions[i - 1]);
    }
  }

  /** A thread that takes a function takes the one that was queued first, and starts to run it. */
  lemma TakesTheOldest(states: seq<State>, actions: seq<Action>, i: nat)
    requires IsRun(states, actions) && i < |actions| && actions[i].Take?
    ensures var s, s', t := states[i], states[i + 1], actions[i].t;
      && s.pool.queue != [] && t < |s.stacks|
      && var f := s.pool.queue[0];
      && s'.pool.queue == s.pool.queue[1..] && s'.stacks == s.stacks[t := s.stacks[t] + [Exec(f, s'.clock)]]
      && forall k :: 0 <= k < |s'.pool.queue| ==> f.id < s'.pool.queue[k].id
  {
    hide InOrder;
    RunKeepsOrder(states, actions, i);
    assert Enabled(states[i], actions[i]) && states[i + 1] == Apply(states[i], actions[i]);
    hide IsRun;
    OldestIsFirst(states[i].pool.queue, |states[i].submitted|);
  }

  lemma OldestIsFirst(queue: seq<Fn>, submitted: nat)
    requires InOrder(queue, submitted) && queue != []
    ensures forall k :: 0 <= k < |queue[1..]| ==> queue[0].id < queue[1..][k].id
  {
  }

  /** A posted function is queued last, counted for its group, and wakes the thread that the notification picks. */
  lemma PostQueues(s: State, t: nat, g: nat, w: nat)
    requires Enabled(s, Post(t, g, w))
    ensures var s', f := Apply(s, Post(t, g, w)), Fn(|s.submitted|, g);
      && s'.submitted == s.submitted + [f] && s'.pool.queue == s.pool.queue + [f]
      && s'.pool.count == s.pool.count[g := s.pool.count[g] + 1]
      && s'.stacks == s.stacks && s'.awake == s.awake[w := true]
  {
  }

  // ---------------------------------------------------------------------------
  // The end of the pool
  // ---------------------------------------------------------------------------

  lemma StopWakesAll(s: State, t: nat)
    requires Enabled(s, Stop(t))
    ensures var s' := Apply(s, Stop(t));
      && s'.stopped && s'.pool.useCount == s.pool.useCount - 1 && s'.stacks == s.stacks
      && forall u :: 0 <= u < |s'.awake| ==> s'.awake[u]
  {
  }

  lemma {:induction false} NothingPositive(count: seq<nat>)
    requires forall g :: 0 <= g < |count| ==> count[g] == 0
    ensures Positives(count) == 0
  {
    if count != [] {
      NothingPositive(count[1..]);
    }
  }

  /** A pool that has been stopped and has nothing left to do is no longer used. */
  lemma DrainedMeansUnused(s: State)
    requires Inv(s) && s.stopped && s.pool.queue == [] && Live(s.stacks) == []
    requires forall g :: 0 <= g < |s.explicitWork| ==> s.explicitWork[g] == 0
    ensures s.pool.useCount == 0
  {
    hide StacksOk, SleepersWait, NoLostWakeup, WorkersStay, Conserved, Live;
    NothingPositive(s.pool.count);
  }

  /** Then every worker that has not left is awake and can leave: the destructor can finish. */
  lemma WorkersCanLeave(states: seq<State>, actions: seq<Action>, i: nat, t: nat)
    requires IsRun(states, actions) && i < |states| && t < states[i].workers
    requires states[i].stopped && states[i].pool.queue == [] && Live(states[i].stacks) == []
    requires forall g :: 0 <= g < |states[i].explicitWork| ==> states[i].explicitWork[g] == 0
    ensures t < |states[i].stacks|
    ensures states[i].stacks[t] == [] || (Enabled(states[i], Exit(t)) && Apply(states[i], Exit(t)).stacks[t] == [])
  {
    RunInv(states, actions, i);
    hide IsRun;
    DrainedMeansUnused(states[i]);
    if states[i].stacks[t] != [] {
      IdleWorkerLoops(states[i], t);
    }
  }

  /** A worker of a pool in which nothing runs is in its loop. */
  lemma IdleWorkerLoops(s: State, t: nat)
    requires Inv(s) && t < s.workers && s.stacks[t] != [] && Live(s.stacks) == [] && s.pool.useCount == 0
    ensures Top(s, t).Loop? && s.awake[t]
  {
    hide Live, Accounted, UseCounted, NoLostWakeup, WorkersStay, Conserved, GroupsOk;
    var n := |s.stacks[t]| - 1;
    assert StackOk(s.workers, t, s.stacks[t], s.owner, s.clock);
    assert FrameOk(s.workers, t, s.stacks[t], n, s.owner, s.clock);
    if n > 0 {
      var i := if s.stacks[t][n].Exec? then n else n - 1;
      assert FrameOk(s.workers, t, s.stacks[t], n - 1, s.owner, s.clock);
      LiveMember(s.stacks, s.stacks[t][i].fn);
      assert false;
    }
  }
}
