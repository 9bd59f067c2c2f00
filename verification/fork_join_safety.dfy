/**
 Every step of the fork/join pool keeps the accounting and wake-up invariant,
 so it holds in every state of every run.
 */
module ForkJoinSafety {
  import opened ForkJoinPool

  // ---------------------------------------------------------------------------
  // Stacks
  // ---------------------------------------------------------------------------

  lemma PushKeepsStack(workers: nat, t: nat, stack: seq<Frame>, f: Frame, owner: seq<nat>, clock: nat, clock': nat)
    requires StackOk(workers, t, stack, owner, clock) && stack != [] && clock <= clock'
    requires f.Exec? ==> f.fn.group < |owner| && owner[f.fn.group] <= clock < f.stamp <= clock'
    requires f.Join? ==> f.group < |owner| && (stack[|stack| - 1].Exec? || stack[|stack| - 1].Client?)
    requires f.Exec? || f.Join?
    ensures StackOk(workers, t, stack + [f], owner, clock')
  {
    forall i | 0 <= i < |stack + [f]|
      ensures FrameOk(workers, t, stack + [f], i, owner, clock')
    {
      if i < |stack| {
        assert FrameOk(workers, t, stack, i, owner, clock);
      }
    }
    forall i | 0 <= i < |stack| && stack[i].Exec?
      ensures stack[i].stamp <= clock
    {
      assert FrameOk(workers, t, stack, i, owner, clock);
    }
  }

  lemma PopKeepsStack(workers: nat, t: nat, stack: seq<Frame>, owner: seq<nat>, clock: nat)
    requires StackOk(workers, t, stack, owner, clock) && stack != []
    requires stack[|stack| - 1].Exec? || stack[|stack| - 1].Join?
    ensures |stack| > 1 && StackOk(workers, t, stack[..|stack| - 1], owner, clock)
  {
    var n := |stack| - 1;
    assert FrameOk(workers, t, stack, n, owner, clock);
    forall i | 0 <= i < n
      ensures FrameOk(workers, t, stack[..n], i, owner, clock)
    {
      assert FrameOk(workers, t, stack, i, owner, clock);
    }
  }

  lemma StackOkLater(workers: nat, t: nat, stack: seq<Frame>, owner: seq<nat>, owner': seq<nat>, clock: nat, clock': nat)
    requires StackOk(workers, t, stack, owner, clock) && owner <= owner' && clock <= clock'
    ensures StackOk(workers, t, stack, owner', clock')
  {
    forall i | 0 <= i < |stack|
      ensures FrameOk(workers, t, stack, i, owner', clock')
    {
      assert FrameOk(workers, t, stack, i, owner, clock);
    }
  }

  /** Replacing the stack of one thread by a good stack keeps all stacks good. */
  lemma StacksOkUpdate(s: State, t: nat, stack: seq<Frame>, clock': nat)
    requires StacksOk(s.workers, s.stacks, s.owner, s.clock) && t < |s.stacks| && s.clock <= clock'
    requires StackOk(s.workers, t, stack, s.owner, clock')
    ensures StacksOk(s.workers, s.stacks[t := stack], s.owner, clock')
  {
    hide StackOk;
    forall u | 0 <= u < |s.stacks| && u != t
      ensures StackOk(s.workers, u, s.stacks[u], s.owner, clock')
    {
      StackOkLater(s.workers, u, s.stacks[u], s.owner, s.owner, s.clock, clock');
    }
  }

  lemma StacksOkPush(s: State, t: nat, f: Frame, clock': nat)
    requires StacksOk(s.workers, s.stacks, s.owner, s.clock) && t < |s.stacks| && s.stacks[t] != [] && s.clock <= clock'
    requires f.Exec? ==> f.fn.group < |s.owner| && s.owner[f.fn.group] <= s.clock < f.stamp <= clock'
    requires f.Join? ==> f.group < |s.owner| && (Top(s, t).Exec? || Top(s, t).Client?)
    requires f.Exec? || f.Join?
    ensures StacksOk(s.workers, s.stacks[t := s.stacks[t] + [f]], s.owner, clock')
  {
    hide StackOk;
    PushKeepsStack(s.workers, t, s.stacks[t], f, s.owner, s.clock, clock');
    StacksOkUpdate(s, t, s.stacks[t] + [f], clock');
  }

  lemma StacksOkPop(s: State, t: nat)
    requires StacksOk(s.workers, s.stacks, s.owner, s.clock) && t < |s.stacks| && s.stacks[t] != []
    requires Top(s, t).Exec? || Top(s, t).Join?
    ensures |s.stacks[t]| > 1
    ensures StacksOk(s.workers, s.stacks[t := s.stacks[t][..|s.stacks[t]| - 1]], s.owner, s.clock)
  {
    hide StackOk;
    PopKeepsStack(s.workers, t, s.stacks[t], s.owner, s.clock);
    StacksOkUpdate(s, t, s.stacks[t][..|s.stacks[t]| - 1], s.clock);
  }

  lemma BottomIsLoop(workers: nat, t: nat, stack: seq<Frame>, owner: seq<nat>, clock: nat)
    requires StackOk(workers, t, stack, owner, clock) && t < workers && stack != []
    ensures stack[0].Loop?
  {
    assert FrameOk(workers, t, stack, 0, owner, clock);
  }

  // ---------------------------------------------------------------------------
  // Work counts
  // ---------------------------------------------------------------------------

  /** How pushing `stack[f]` changes what runs. */
  lemma PushCounts(ss: seq<seq<Frame>>, t: nat, f: Frame)
    requires t < |ss|
    ensures forall g: nat ::
      Tally(g, Live(ss[t := ss[t] + [f]])) == Tally(g, Live(ss)) + if f.Exec? && f.fn.group == g then 1 else 0
    ensures multiset(Live(ss[t := ss[t] + [f]])) ==
            multiset(Live(ss)) + if f.Exec? then multiset{f.fn} else multiset{}
  {
    hide Live;
    var ss' := ss[t := ss[t] + [f]];
    LiveSplit(ss, t);
    LiveSplit(ss', t);
    assert ss'[..t] == ss[..t] && ss'[t + 1..] == ss[t + 1..];
    FnsPush(ss[t], f);
    var a, m, b := Live(ss[..t]), Fns(ss[t]), Live(ss[t + 1..]);
    if f.Exec? {
      assert Live(ss') == a + m + [f.fn] + b;
      forall g: nat
        ensures Tally(g, Live(ss')) == Tally(g, Live(ss)) + if f.fn.group == g then 1 else 0
      {
        TallyConcat(g, a + m, b);
        TallyConcat(g, a + m, [f.fn]);
        TallyConcat(g, a + m + [f.fn], b);
      }
    }
  }

  lemma PopCounts(ss: seq<seq<Frame>>, t: nat)
    requires t < |ss| && ss[t] != []
    ensures
      var n := |ss[t]| - 1;
      var f := ss[t][n];
      var ss' := ss[t := ss[t][..n]];
      && (forall g: nat ::
            Tally(g, Live(ss)) == Tally(g, Live(ss')) + if f.Exec? && f.fn.group == g then 1 else 0)
      && multiset(Live(ss)) == multiset(Live(ss')) + if f.Exec? then multiset{f.fn} else multiset{}
  {
    hide Live, Tally;
    var n := |ss[t]| - 1;
    var ss' := ss[t := ss[t][..n]];
    PushCounts(ss', t, ss[t][n]);
    assert ss[t][..n] + [ss[t][n]] == ss[t];
    assert ss'[t := ss'[t] + [ss[t][n]]] == ss;
  }

  /** Group `g` gains one unit of work that is queued, running or explicit. */
  lemma StartKeepsAccount(p: Pool, q: seq<Fn>, ss: seq<seq<Frame>>, ss': seq<seq<Frame>>, e: seq<nat>, e': seq<nat>, g: nat)
    requires Accounted(p, ss, e) && g < |p.count| && |e'| == |e|
    requires forall h: nat :: h < |e| ==>
      Tally(h, q) + Tally(h, Live(ss')) + e'[h] ==
      Tally(h, p.queue) + Tally(h, Live(ss)) + e[h] + if h == g then 1 else 0
    ensures Accounted(WorkStarted(p.(queue := q), g), ss', e')
  {
    hide Tally, Live;
  }

  lemma FinishKeepsAccount(p: Pool, ss: seq<seq<Frame>>, ss': seq<seq<Frame>>, e: seq<nat>, e': seq<nat>, g: nat)
    requires Accounted(p, ss, e) && CanFinish(p, g) && |e'| == |e|
    requires forall h: nat :: h < |e| ==>
      Tally(h, Live(ss')) + e'[h] + (if h == g then 1 else 0) == Tally(h, Live(ss)) + e[h]
    ensures Accounted(WorkFinished(p, g), ss', e')
  {
    hide Tally, Live;
  }

  lemma StartKeepsUse(p: Pool, g: nat, stopped: bool)
    requires UseCounted(p, stopped) && g < |p.count|
    ensures UseCounted(WorkStarted(p, g), stopped)
  {
    PositivesUpdate(p.count, g, p.count[g] + 1);
  }

  lemma FinishKeepsUse(p: Pool, g: nat, stopped: bool)
    requires UseCounted(p, stopped) && CanFinish(p, g)
    ensures UseCounted(WorkFinished(p, g), stopped)
  {
    PositivesUpdate(p.count, g, p.count[g] - 1);
  }

  /** A group with work keeps the pool in use. */
  lemma PositiveMeansUsed(p: Pool, stopped: bool, g: nat)
    requires UseCounted(p, stopped) && g < |p.count| && p.count[g] > 0
    ensures p.useCount > 0
  {
    PositivesZero(p.count);
  }

  /** A running function has a positive group count. */
  lemma RunningMeansPositive(s: State, t: nat, i: nat)
    requires Accounted(s.pool, s.stacks, s.explicitWork) && StacksOk(s.workers, s.stacks, s.owner, s.clock) && Sized(s)
    requires t < |s.stacks| && i < |s.stacks[t]| && s.stacks[t][i].Exec?
    ensures s.stacks[t][i].fn.group < |s.pool.count| && s.pool.count[s.stacks[t][i].fn.group] > 0
  {
    var f := s.stacks[t][i].fn;
    assert FrameOk(s.workers, t, s.stacks[t], i, s.owner, s.clock);
    hide StacksOk, Live;
    LiveMember(s.stacks, f);
    TallyMember(f.group, Live(s.stacks));
  }

  // ---------------------------------------------------------------------------
  // Sleeping and waking
  // ---------------------------------------------------------------------------

  /** A stack that comes back to the queue still does when it grows and no group runs out of work. */
  lemma ComesBackStays(count: seq<nat>, count': seq<nat>, stack: seq<Frame>, stack': seq<Frame>)
    requires ComesBack(count, stack) && stack <= stack'
    requires forall g :: 0 <= g < |count| && count[g] > 0 ==> g < |count'| && count'[g] > 0
    ensures ComesBack(count', stack')
  {
    if !stack[0].Loop? {
      var i :| 0 <= i < |stack| && stack[i].Join? && stack[i].group < |count| && count[stack[i].group] > 0;
      assert stack'[i] == stack[i];
    }
  }

  /** Popping a frame that is not waited in keeps a stack coming back. */
  lemma ComesBackAfterPop(count: seq<nat>, stack: seq<Frame>)
    requires ComesBack(count, stack) && |stack| > 1
    requires !LoopHolds(Pool([], 0, count), stack[|stack| - 1])
    ensures ComesBack(count, stack[..|stack| - 1])
  {
    if !stack[0].Loop? {
      var i :| 0 <= i < |stack| && stack[i].Join? && stack[i].group < |count| && count[stack[i].group] > 0;
      assert stack[..|stack| - 1][i] == stack[i];
    }
  }

  /** Wake-ups are kept when nobody falls asleep, stacks only grow and no group runs out of work. */
  lemma AlertStays(p: Pool, p': Pool, ss: seq<seq<Frame>>, ss': seq<seq<Frame>>, aw: seq<bool>, aw': seq<bool>)
    requires p'.queue != [] ==> SomeoneAlert(p.count, ss, aw)
    requires |ss| == |ss'| == |aw| == |aw'|
    requires forall t :: 0 <= t < |aw| && aw[t] ==> aw'[t]
    requires forall t :: 0 <= t < |ss| ==> ss[t] <= ss'[t]
    requires forall g :: 0 <= g < |p.count| && p.count[g] > 0 ==> g < |p'.count| && p'.count[g] > 0
    ensures NoLostWakeup(p', ss', aw')
  {
    hide ComesBack;
    if p'.queue != [] {
      var t :| 0 <= t < |ss| && t < |aw| && aw[t] && ComesBack(p.count, ss[t]);
      ComesBackStays(p.count, p'.count, ss[t], ss'[t]);
    }
  }

  /** After notify_all the first worker is alert. */
  lemma AllAwakeAlert(s: State, p: Pool, ss: seq<seq<Frame>>, aw: seq<bool>)
    requires Sized(s) && StacksOk(s.workers, ss, s.owner, s.clock) && |ss| == |aw| == |s.stacks| && ss[0] != []
    requires forall t :: 0 <= t < |aw| ==> aw[t]
    ensures SomeoneAlert(p.count, ss, aw) && SleepersWait(p, ss, aw)
  {
    BottomIsLoop(s.workers, 0, ss[0], s.owner, s.clock);
    assert ComesBack(p.count, ss[0]);
  }

  /** A sleeper that is notified is alert: it blocks only while its loop condition holds. */
  lemma NotifiedIsAlert(s: State, w: nat, g: nat)
    requires Sized(s) && StacksOk(s.workers, s.stacks, s.owner, s.clock) && SleepersWait(s.pool, s.stacks, s.awake)
    requires w < |s.awake| && !s.awake[w] && g < |s.pool.count|
    ensures ComesBack(WorkStarted(s.pool, g).count, s.stacks[w])
  {
    var stack := s.stacks[w];
    assert FrameOk(s.workers, w, stack, |stack| - 1, s.owner, s.clock);
    if stack[|stack| - 1].Join? {
      assert WaitsForWork(s.pool.count, stack);
    }
  }

  lemma SleepersWaitStays(p: Pool, p': Pool, ss: seq<seq<Frame>>, aw: seq<bool>, aw': seq<bool>)
    requires SleepersWait(p, ss, aw) && |ss| == |aw| == |aw'|
    requires forall t :: 0 <= t < |aw| && !aw'[t] ==> !aw[t]
    requires p.useCount > 0 ==> p'.useCount > 0
    requires forall g :: 0 <= g < |p.count| && p.count[g] > 0 ==> g < |p'.count| && p'.count[g] > 0
    ensures SleepersWait(p', ss, aw')
  {
  }

  // ---------------------------------------------------------------------------
  // The end of the pool
  // ---------------------------------------------------------------------------

  /** A pool that is no longer used has nothing queued, running or outstanding. */
  lemma UnusedIsDrained(s: State)
    requires Inv(s) && s.pool.useCount == 0
    ensures s.stopped && s.pool.queue == [] && Live(s.stacks) == []
    ensures forall g :: 0 <= g < |s.explicitWork| ==> s.explicitWork[g] == 0
  {
    hide StacksOk, SleepersWait, WorkersStay, NoLostWakeup, Conserved, Live;
    PositivesZero(s.pool.count);
    if s.pool.queue != [] {
      TallyMember(s.pool.queue[0].group, s.pool.queue);
      assert false;
    }
    if Live(s.stacks) != [] {
      var f := Live(s.stacks)[0];
      LiveMember(s.stacks, f);
      var t, i :| 0 <= t < |s.stacks| && 0 <= i < |s.stacks[t]| && s.stacks[t][i].Exec? && s.stacks[t][i].fn == f;
      RunningMeansPositive(s, t, i);
      assert false;
    }
  }

  /** Whoever may submit work finds the pool in use. */
  lemma StillUsed(s: State, t: nat)
    requires Inv(s) && InCode(s, t) && (s.stopped ==> Top(s, t).Exec?)
    ensures s.pool.useCount > 0 && s.stacks[0] != []
  {
    hide StacksOk, SleepersWait, NoLostWakeup, Conserved, Live, Accounted;
    if s.stopped {
      RunningMeansPositive(s, t, |s.stacks[t]| - 1);
      PositiveMeansUsed(s.pool, s.stopped, Top(s, t).fn.group);
    }
  }

  // ---------------------------------------------------------------------------
  // One lemma per kind of step
  // ---------------------------------------------------------------------------

  lemma KeepExit(s: State, t: nat)
    requires Inv(s) && Enabled(s, Exit(t))
    ensures Inv(Apply(s, Exit(t)))
  {
    hide StacksOk, Live, Tally, Conserved, StackOk, UseCounted, GroupsOk;
    UnusedIsDrained(s);
    LoopIsAlone(s, t);
    StacksOkUpdate(s, t, [], s.clock);
    PopCounts(s.stacks, t);
    assert s.stacks[t][..0] == [];
    ConservedSame(s.pool.queue, s.stacks, s.stacks[t := []], s.submitted, s.finished);
  }

  lemma LoopIsAlone(s: State, t: nat)
    requires StacksOk(s.workers, s.stacks, s.owner, s.clock) && t < |s.stacks| && s.stacks[t] != [] && Top(s, t).Loop?
    ensures s.stacks[t] == [Loop] && StackOk(s.workers, t, [], s.owner, s.clock)
  {
    assert FrameOk(s.workers, t, s.stacks[t], |s.stacks[t]| - 1, s.owner, s.clock);
  }

  lemma ConservedSame(q: seq<Fn>, ss: seq<seq<Frame>>, ss': seq<seq<Frame>>, submitted: seq<Fn>, finished: seq<Fn>)
    requires Conserved(q, ss, submitted, finished) && multiset(Live(ss')) == multiset(Live(ss))
    ensures Conserved(q, ss', submitted, finished)
  {
    hide Live;
  }

  lemma KeepSleepWake(s: State, a: Action)
    requires Inv(s) && Enabled(s, a) && (a.Sleep? || a.SpuriousWake?)
    ensures Inv(Apply(s, a))
  {
    hide StacksOk, Accounted, UseCounted, Conserved, WorkersStay, ComesBack, GroupsOk;
  }

  lemma KeepStop(s: State, t: nat)
    requires Inv(s) && Enabled(s, Stop(t))
    ensures Inv(Apply(s, Stop(t)))
  {
    hide StacksOk, Live, Tally, Conserved, GroupsOk, NoLostWakeup, SleepersWait, Positives, SomeoneAlert;
    var s' := Apply(s, Stop(t));
    AllAwakeAlert(s, s'.pool, s.stacks, s'.awake);
    AlertIsEnough(s'.pool, s'.stacks, s'.awake);
  }

  lemma AlertIsEnough(p: Pool, ss: seq<seq<Frame>>, aw: seq<bool>)
    requires SomeoneAlert(p.count, ss, aw)
    ensures NoLostWakeup(p, ss, aw)
  {
  }

  /** A group that does not exist yet has nothing queued or running. */
  lemma NewGroupIsEmpty(s: State)
    requires Sized(s) && GroupsOk(s.pool.queue, s.owner, s.clock) && StacksOk(s.workers, s.stacks, s.owner, s.clock)
    ensures Tally(|s.owner|, s.pool.queue) == 0 && Tally(|s.owner|, Live(s.stacks)) == 0
  {
    hide Live;
    var n := |s.owner|;
    TallyMember(n, s.pool.queue);
    TallyMember(n, Live(s.stacks));
    forall k | 0 <= k < |Live(s.stacks)|
      ensures Live(s.stacks)[k].group < n
    {
      LiveMember(s.stacks, Live(s.stacks)[k]);
      var u, i :| 0 <= u < |s.stacks| && 0 <= i < |s.stacks[u]| && s.stacks[u][i].Exec? && s.stacks[u][i].fn == Live(s.stacks)[k];
      assert FrameOk(s.workers, u, s.stacks[u], i, s.owner, s.clock);
    }
  }

  lemma TopStamp(s: State, t: nat)
    requires StacksOk(s.workers, s.stacks, s.owner, s.clock) && t < |s.stacks| && s.stacks[t] != []
    requires GroupsOk(s.pool.queue, s.owner, s.clock)
    ensures GroupsOk(s.pool.queue, s.owner + [Stamp(Top(s, t))], s.clock)
  {
    assert FrameOk(s.workers, t, s.stacks[t], |s.stacks[t]| - 1, s.owner, s.clock);
  }

  lemma StacksOkNewGroup(s: State, stamp: nat)
    requires StacksOk(s.workers, s.stacks, s.owner, s.clock)
    ensures StacksOk(s.workers, s.stacks, s.owner + [stamp], s.clock)
  {
    hide StackOk;
    forall u | 0 <= u < |s.stacks|
      ensures StackOk(s.workers, u, s.stacks[u], s.owner + [stamp], s.clock)
    {
      StackOkLater(s.workers, u, s.stacks[u], s.owner, s.owner + [stamp], s.clock, s.clock);
    }
  }

  lemma KeepNewGroup(s: State, t: nat)
    requires Inv(s) && Enabled(s, NewGroup(t))
    ensures Inv(Apply(s, NewGroup(t)))
  {
    hide StacksOk, Live, Tally, Conserved, NoLostWakeup, SleepersWait, Positives, SomeoneAlert, WorkersStay, GroupsOk;
    var s' := Apply(s, NewGroup(t));
    TopStamp(s, t);
    PositivesPush(s.pool.count);
    NewGroupIsEmpty(s);
    StacksOkNewGroup(s, Stamp(Top(s, t)));
    SleepersWaitStays(s.pool, s'.pool, s.stacks, s.awake, s'.awake);
    AlertCase(s);
    AlertStays(s.pool, s'.pool, s.stacks, s'.stacks, s.awake, s'.awake);
  }

  lemma AlertCase(s: State)
    requires NoLostWakeup(s.pool, s.stacks, s.awake)
    ensures s.pool.queue != [] ==> SomeoneAlert(s.pool.count, s.stacks, s.awake)
  {
  }

  lemma KeepBeginWork(s: State, t: nat, g: nat)
    requires Inv(s) && Enabled(s, BeginWork(t, g))
    ensures Inv(Apply(s, BeginWork(t, g)))
  {
    hide StacksOk, Live, Tally, Conserved, NoLostWakeup, SleepersWait, Positives, SomeoneAlert, GroupsOk, Accounted, UseCounted;
    var s' := Apply(s, BeginWork(t, g));
    StillUsed(s, t);
    StartKeepsAccount(s.pool, s.pool.queue, s.stacks, s.stacks, s.explicitWork, s'.explicitWork, g);
    assert s.pool.(queue := s.pool.queue) == s.pool;
    StartKeepsUse(s.pool, g, s.stopped);
    SleepersWaitStays(s.pool, s'.pool, s.stacks, s.awake, s'.awake);
    AlertCase(s);
    AlertStays(s.pool, s'.pool, s.stacks, s'.stacks, s.awake, s'.awake);
  }

  lemma SubmitWakes(s: State, g: nat, w: nat)
    requires Sized(s) && StacksOk(s.workers, s.stacks, s.owner, s.clock) && SleepersWait(s.pool, s.stacks, s.awake)
    requires g < |s.pool.count| && CanPick(s.awake, w) && s.stacks[0] != []
    ensures SomeoneAlert(WorkStarted(s.pool, g).count, s.stacks, s.awake[w := true])
  {
    hide StacksOk, ComesBack, SleepersWait;
    if s.awake[w] {
      AllAwakeAlert(s, WorkStarted(s.pool, g), s.stacks, s.awake[w := true]);
    } else {
      NotifiedIsAlert(s, w, g);
    }
  }

  lemma KeepSubmit(s: State, t: nat, g: nat, w: nat)
    requires Inv(s) && MaySubmit(s, t, g) && CanPick(s.awake, w)
    ensures Inv(Submit(s, g, w))
  {
    hide StacksOk, Live, Conserved, NoLostWakeup, SleepersWait, SomeoneAlert, Accounted, UseCounted;
    var s' := Submit(s, g, w);
    var f := Fn(|s.submitted|, g);
    StillUsed(s, t);
    forall h: nat
      ensures Tally(h, s.pool.queue + [f]) == Tally(h, s.pool.queue) + if h == g then 1 else 0
    {
      TallyConcat(h, s.pool.queue, [f]);
    }
    StartKeepsAccount(s.pool, s.pool.queue + [f], s.stacks, s.stacks, s.explicitWork, s.explicitWork, g);
    UseIgnoresQueue(s.pool, s.pool.queue + [f], s.stopped);
    StartKeepsUse(s.pool.(queue := s.pool.queue + [f]), g, s.stopped);
    SleepersWaitStays(s.pool, s'.pool, s.stacks, s.awake, s'.awake);
    SubmitWakes(s, g, w);
    AlertIsEnough(s'.pool, s'.stacks, s'.awake);
    SubmitConserves(s.pool.queue, s.pool.queue + [f], s.stacks, s.stacks, s.submitted, s.finished, f);
  }

  lemma UseIgnoresQueue(p: Pool, q: seq<Fn>, stopped: bool)
    requires UseCounted(p, stopped)
    ensures UseCounted(p.(queue := q), stopped)
  {
  }

  /** A new function is queued or runs at once. */
  lemma SubmitConserves(q: seq<Fn>, q': seq<Fn>, ss: seq<seq<Frame>>, ss': seq<seq<Frame>>, submitted: seq<Fn>, finished: seq<Fn>, f: Fn)
    requires Conserved(q, ss, submitted, finished) && f.id == |submitted|
    requires multiset(q') + multiset(Live(ss')) == multiset(q) + multiset(Live(ss)) + multiset{f}
    ensures Conserved(q', ss', submitted + [f], finished)
  {
    hide Live;
    assert multiset(submitted + [f]) == multiset(submitted) + multiset{f};
  }

  lemma KeepInline(s: State, t: nat, g: nat)
    requires Inv(s) && MaySubmit(s, t, g)
    ensures Inv(RunInline(s, t, g))
  {
    hide StacksOk, Live, Conserved, NoLostWakeup, SleepersWait, SomeoneAlert, Accounted, UseCounted, Tally;
    var s' := RunInline(s, t, g);
    var f := Fn(|s.submitted|, g);
    StillUsed(s, t);
    PushCounts(s.stacks, t, Exec(f, s.clock + 1));
    StacksOkPush(s, t, Exec(f, s.clock + 1), s.clock + 1);
    StartKeepsAccount(s.pool, s.pool.queue, s.stacks, s'.stacks, s.explicitWork, s.explicitWork, g);
    assert s.pool.(queue := s.pool.queue) == s.pool;
    StartKeepsUse(s.pool, g, s.stopped);
    SleepersWaitStays(s.pool, s'.pool, s.stacks, s.awake, s.awake);
    SleepersWaitElsewhere(s'.pool, s.stacks, s'.stacks, s.awake, t);
    AlertCase(s);
    AlertStays(s.pool, s'.pool, s.stacks, s'.stacks, s.awake, s'.awake);
    SubmitConserves(s.pool.queue, s.pool.queue, s.stacks, s'.stacks, s.submitted, s.finished, f);
  }

  /** The stack of an awake thread does not matter to the sleepers. */
  lemma SleepersWaitElsewhere(p: Pool, ss: seq<seq<Frame>>, ss': seq<seq<Frame>>, aw: seq<bool>, t: nat)
    requires SleepersWait(p, ss, aw) && |ss| == |ss'| == |aw| && t < |aw| && aw[t]
    requires forall u :: 0 <= u < |ss| && u != t ==> ss'[u] == ss[u]
    ensures SleepersWait(p, ss', aw)
  {
  }

  lemma TopComesBack(s: State, t: nat)
    requires Sized(s) && StacksOk(s.workers, s.stacks, s.owner, s.clock) && Looping(s, t)
    ensures SomeoneAlert(s.pool.count, s.stacks, s.awake)
  {
    assert FrameOk(s.workers, t, s.stacks[t], |s.stacks[t]| - 1, s.owner, s.clock);
    if Top(s, t).Join? {
      assert WaitsForWork(s.pool.count, s.stacks[t]);
    }
    assert ComesBack(s.pool.count, s.stacks[t]);
  }

  lemma KeepTake(s: State, t: nat)
    requires Inv(s) && Enabled(s, Take(t))
    ensures Inv(Apply(s, Take(t)))
  {
    hide StacksOk, Live, Conserved, NoLostWakeup, SleepersWait, SomeoneAlert, UseCounted, Accounted;
    TakeConserves(s, t);
    var s' := Apply(s, Take(t));
    var f := s.pool.queue[0];
    StacksOkPush(s, t, Exec(f, s.clock + 1), s.clock + 1);
    UseIgnoresQueue(s.pool, s.pool.queue[1..], s.stopped);
    SleepersWaitStays(s.pool, s'.pool, s.stacks, s.awake, s.awake);
    SleepersWaitElsewhere(s'.pool, s.stacks, s'.stacks, s.awake, t);
    TopComesBack(s, t);
    AlertStays(s.pool, s'.pool, s.stacks, s'.stacks, s.awake, s'.awake);
  }

  /** Taking a function moves it from the queue to a stack. */
  lemma TakeConserves(s: State, t: nat)
    requires Inv(s) && Enabled(s, Take(t))
    ensures var s' := Apply(s, Take(t));
      && Accounted(s'.pool, s'.stacks, s'.explicitWork)
      && Conserved(s'.pool.queue, s'.stacks, s'.submitted, s'.finished)
  {
    hide StacksOk, Live, NoLostWakeup, SleepersWait, SomeoneAlert, UseCounted, WorkersStay, GroupsOk;
    PushCounts(s.stacks, t, Exec(s.pool.queue[0], s.clock + 1));
    assert s.pool.queue == [s.pool.queue[0]] + s.pool.queue[1..];
  }

  lemma KeepStartJoin(s: State, t: nat, g: nat)
    requires Inv(s) && Enabled(s, StartJoin(t, g))
    ensures Inv(Apply(s, StartJoin(t, g)))
  {
    hide StacksOk, Live, Conserved, NoLostWakeup, SleepersWait, SomeoneAlert, UseCounted, Tally, GroupsOk;
    var s' := Apply(s, StartJoin(t, g));
    PushCounts(s.stacks, t, Join(g));
    StacksOkPush(s, t, Join(g), s.clock);
    SleepersWaitElsewhere(s.pool, s.stacks, s'.stacks, s.awake, t);
    AlertCase(s);
    AlertStays(s.pool, s'.pool, s.stacks, s'.stacks, s.awake, s'.awake);
    ConservedSame(s.pool.queue, s.stacks, s'.stacks, s.submitted, s.finished);
  }

  /** Wake-ups are kept when an awake thread pops a frame it does not wait in. */
  lemma PopKeepsAlert(p: Pool, ss: seq<seq<Frame>>, aw: seq<bool>, t: nat)
    requires NoLostWakeup(p, ss, aw) && t < |ss| == |aw| && |ss[t]| > 1
    requires !LoopHolds(Pool([], 0, p.count), ss[t][|ss[t]| - 1])
    ensures NoLostWakeup(p, ss[t := ss[t][..|ss[t]| - 1]], aw)
  {
    hide ComesBack;
    if p.queue != [] {
      var u :| 0 <= u < |ss| && u < |aw| && aw[u] && ComesBack(p.count, ss[u]);
      if u == t {
        ComesBackAfterPop(p.count, ss[t]);
      }
      assert ComesBack(p.count, ss[t := ss[t][..|ss[t]| - 1]][u]);
    }
  }

  lemma KeepJoinReturn(s: State, t: nat)
    requires Inv(s) && Enabled(s, JoinReturn(t))
    ensures Inv(Apply(s, JoinReturn(t)))
  {
    hide StacksOk, Live, Conserved, NoLostWakeup, SleepersWait, SomeoneAlert, UseCounted, Tally, GroupsOk;
    var s' := Apply(s, JoinReturn(t));
    PopCounts(s.stacks, t);
    StacksOkPop(s, t);
    SleepersWaitElsewhere(s.pool, s.stacks, s'.stacks, s.awake, t);
    PopKeepsAlert(s.pool, s.stacks, s.awake, t);
    ConservedSame(s.pool.queue, s.stacks, s'.stacks, s.submitted, s.finished);
  }

  /** do_work_finished wakes everybody or lets no group run out of work. */
  lemma FinishWakes(s: State, g: nat)
    requires Inv(s) && CanFinish(s.pool, g)
    ensures var p, aw := WorkFinished(s.pool, g), AwakeAfterFinish(s, g);
      && SleepersWait(p, s.stacks, aw) && NoLostWakeup(p, s.stacks, aw)
      && WorkersStay(p.useCount, s.workers, s.stacks) && s.stacks[0] != []
  {
    hide StacksOk, Live, Conserved, NoLostWakeup, SleepersWait, SomeoneAlert, UseCounted, Accounted, GroupsOk;
    var p, aw := WorkFinished(s.pool, g), AwakeAfterFinish(s, g);
    PositiveMeansUsed(s.pool, s.stopped, g);
    if s.pool.count[g] == 1 {
      AllAwakeAlert(s, p, s.stacks, aw);
      AlertIsEnough(p, s.stacks, aw);
    } else {
      SleepersWaitStays(s.pool, p, s.stacks, s.awake, aw);
      AlertCase(s);
      AlertStays(s.pool, p, s.stacks, s.stacks, s.awake, aw);
    }
  }

  lemma KeepEndWork(s: State, t: nat, g: nat)
    requires Inv(s) && Enabled(s, EndWork(t, g))
    ensures Inv(Apply(s, EndWork(t, g)))
  {
    hide StacksOk, Live, Conserved, NoLostWakeup, SleepersWait, UseCounted, Tally, GroupsOk, Accounted, WorkersStay;
    var s' := Apply(s, EndWork(t, g));
    FinishWakes(s, g);
    FinishKeepsAccount(s.pool, s.stacks, s.stacks, s.explicitWork, s'.explicitWork, g);
    FinishKeepsUse(s.pool, g, s.stopped);
  }

  lemma KeepReturn(s: State, t: nat)
    requires Inv(s) && Enabled(s, Return(t))
    ensures Inv(Apply(s, Return(t)))
  {
    hide StacksOk, Live, Conserved, NoLostWakeup, SleepersWait, UseCounted, Tally, GroupsOk, Accounted;
    var s' := Apply(s, Return(t));
    var f := Top(s, t).fn;
    FinishWakes(s, f.group);
    PopCounts(s.stacks, t);
    StacksOkPop(s, t);
    FinishKeepsAccount(s.pool, s.stacks, s'.stacks, s.explicitWork, s.explicitWork, f.group);
    FinishKeepsUse(s.pool, f.group, s.stopped);
    SleepersWaitElsewhere(s'.pool, s.stacks, s'.stacks, s'.awake, t);
    PopKeepsAlert(s'.pool, s.stacks, s'.awake, t);
    FinishConserves(s.pool.queue, s.stacks, s'.stacks, s.submitted, s.finished, f);
  }

  lemma FinishConserves(q: seq<Fn>, ss: seq<seq<Frame>>, ss': seq<seq<Frame>>, submitted: seq<Fn>, finished: seq<Fn>, f: Fn)
    requires Conserved(q, ss, submitted, finished)
    requires multiset(Live(ss)) == multiset(Live(ss')) + multiset{f}
    ensures Conserved(q, ss', submitted, finished + [f])
  {
    hide Live;
    assert multiset(finished + [f]) == multiset(finished) + multiset{f};
  }

  lemma KeepInv(s: State, a: Action)
    requires Inv(s) && Enabled(s, a)
    ensures Inv(Apply(s, a))
  {
    hide Inv;
    match a
    case Exit(t) => KeepExit(s, t);
    case Take(t) => KeepTake(s, t);
    case Sleep(t) => KeepSleepWake(s, a);
    case JoinReturn(t) => KeepJoinReturn(s, t);
    case StartJoin(t, g) => KeepStartJoin(s, t, g);
    case Return(t) => KeepReturn(s, t);
    case NewGroup(t) => KeepNewGroup(s, t);
    case Post(t, g, w) => KeepSubmit(s, t, g, w);
    case Dispatch(t, g, w) =>
      if Loaded(s.pool, s.workers) {
        KeepInline(s, t, g);
      } else {
        KeepSubmit(s, t, g, w);
      }
    case BeginWork(t, g) => KeepBeginWork(s, t, g);
    case EndWork(t, g) => KeepEndWork(s, t, g);
    case Stop(t) => KeepStop(s, t);
    case SpuriousWake(t) => KeepSleepWake(s, a);
  }

  lemma {:induction false} LiveOfIdle(ss: seq<seq<Frame>>)
    requires forall t :: 0 <= t < |ss| ==> |ss[t]| == 1 && !ss[t][0].Exec?
    ensures Live(ss) == []
  {
    if ss != [] {
      FnsPush([], ss[0][0]);
      assert ss[0] == [] + [ss[0][0]];
      LiveOfIdle(ss[1..]);
    }
  }

  lemma InitialStacks(s: State)
    requires Initial(s)
    ensures StacksOk(s.workers, s.stacks, s.owner, s.clock)
  {
    forall t | 0 <= t < |s.stacks|
      ensures StackOk(s.workers, t, s.stacks[t], s.owner, s.clock)
    {
      assert s.stacks[t] == [if t < s.workers then Loop else Client];
    }
  }

  lemma InitialInv(s: State)
    requires Initial(s)
    ensures Inv(s)
  {
    hide StacksOk, Live;
    InitialStacks(s);
    LiveOfIdle(s.stacks);
  }

  /** The invariant holds in every state of every run. */
  lemma {:induction false} RunInv(states: seq<State>, actions: seq<Action>, i: nat)
    requires IsRun(states, actions) && i < |states|
    ensures Inv(states[i])
  {
    hide Inv, Apply, Enabled;
    if i == 0 {
      InitialInv(states[0]);
    } else {
      RunInv(states, actions, i - 1);
      assert Enabled(states[i - 1], actions[i - 1]) && states[(i - 1) + 1] == Apply(states[i - 1], actions[i - 1]);
      KeepInv(states[i - 1], actions[i - 1]);
    }
  }
}
