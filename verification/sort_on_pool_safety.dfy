/**
 What every step of the sort on the pool keeps: the pool's own invariant, the tree
 of calls, and the ties between them. Every step of a thread is a step of the
 task that the tree of calls denotes.
 */
module SortOnPoolSafety {
  import opened ForkJoinPool
  import opened ForkJoinSafety
  import Theorems = ForkJoinTheorems
  import opened SortOnPool
  import S = ForkJoinSort

  // ---------------------------------------------------------------------------
  // Invariant
  // ---------------------------------------------------------------------------

  ghost predicate CallsFit(calls: seq<Call>, a: seq<real>) {
    forall c :: 0 <= c < |calls| ==> Fits(calls[c], a)
  }

  /** Functions in the queue have not started. */
  ghost predicate QueueReady(calls: seq<Call>, queue: seq<Fn>) {
    forall i :: 0 <= i < |queue| ==> queue[i].id + 1 < |calls| && calls[queue[i].id + 1].phase.Ready?
  }

  /** Functions that have returned have done their work. */
  ghost predicate FinishedDone(calls: seq<Call>, finished: seq<Fn>) {
    forall i :: 0 <= i < |finished| ==> finished[i].id + 1 < |calls| && calls[finished[i].id + 1].phase.Finished?
  }

  /** The calls a call has dispatched are functions of its group. */
  predicate GroupFits(p: Phase, submitted: seq<Fn>, groups: nat) {
    && (HasGroup(p) ==> p.g < groups)
    && (p.Half? || HasBoth(p) ==> 0 < p.left <= |submitted| && submitted[p.left - 1].group == p.g)
    && (HasBoth(p) ==> 0 < p.right <= |submitted| && submitted[p.right - 1].group == p.g)
  }

  ghost predicate GroupsFit(calls: seq<Call>, submitted: seq<Fn>, groups: nat) {
    forall c :: 0 <= c < |calls| ==> GroupFits(calls[c].phase, submitted, groups)
  }

  /** A function made its call's group; a join stands on the call that waits in it. */
  predicate FrameFits(calls: seq<Call>, owner: seq<nat>, workers: nat, t: nat, stack: seq<Frame>, i: nat)
    requires i < |stack|
  {
    match stack[i]
    case Exec(f, stamp) =>
      f.id + 1 < |calls| && (HasGroup(calls[f.id + 1].phase) ==> calls[f.id + 1].phase.g < |owner| && owner[calls[f.id + 1].phase.g] == stamp)
    case Join(g) =>
      && i > 0 && IsCode(workers, t, stack[i - 1])
      && CallOf(stack[i - 1]) < |calls| && calls[CallOf(stack[i - 1])].phase.Joining? && calls[CallOf(stack[i - 1])].phase.g == g
    case _ => true
  }

  ghost predicate StackFits(calls: seq<Call>, owner: seq<nat>, workers: nat, t: nat, stack: seq<Frame>) {
    forall i :: 0 <= i < |stack| ==> FrameFits(calls, owner, workers, t, stack, i)
  }

  ghost predicate FramesFit(calls: seq<Call>, owner: seq<nat>, workers: nat, stacks: seq<seq<Frame>>) {
    forall t :: 0 <= t < |stacks| ==> StackFits(calls, owner, workers, t, stacks[t])
  }

  /** A call that waits in a join has the frame of the join right above it. */
  ghost predicate JoinsAbove(calls: seq<Call>, workers: nat, stacks: seq<seq<Frame>>) {
    forall t, i :: 0 <= t < |stacks| && 0 <= i < |stacks[t]| && Waits(calls, workers, t, stacks[t][i]) ==>
      i + 1 < |stacks[t]| && stacks[t][i + 1].Join?
  }

  predicate Waits(calls: seq<Call>, workers: nat, t: nat, f: Frame) {
    IsCode(workers, t, f) && CallOf(f) < |calls| && calls[CallOf(f)].phase.Joining?
  }

  ghost predicate NoExplicitWork(e: seq<nat>) {
    forall g :: 0 <= g < |e| ==> e[g] == 0
  }

  ghost predicate SysInv(x: System) {
    && Inv(x.s) && Tree(x.calls)
    && |x.calls| == |x.s.submitted| + 1 && x.s.workers < |x.s.stacks|
    && NoExplicitWork(x.s.explicitWork)
    && CallsFit(x.calls, x.a)
    && QueueReady(x.calls, x.s.pool.queue)
    && FinishedDone(x.calls, x.s.finished)
    && GroupsFit(x.calls, x.s.submitted, |x.s.pool.count|)
    && FramesFit(x.calls, x.s.owner, x.s.workers, x.s.stacks)
    && JoinsAbove(x.calls, x.s.workers, x.s.stacks)
    && (x.s.stopped ==> x.calls[0].phase.Finished?)
  }

  // ---------------------------------------------------------------------------
  // A call runs in one frame only
  // ---------------------------------------------------------------------------

  lemma {:induction false} FnsTwice(stack: seq<Frame>, i: nat, j: nat)
    requires i < j < |stack| && stack[i].Exec? && stack[j].Exec? && stack[i].fn == stack[j].fn
    ensures multiset(Fns(stack))[stack[i].fn] > 1
    decreases |stack|
  {
    hide Fns;
    var n, f := |stack| - 1, stack[i].fn;
    var rest := stack[..n];
    FnsPush(rest, stack[n]);
    assert rest + [stack[n]] == stack && rest[i] == stack[i];
    if j < n {
      assert rest[j] == stack[j];
      FnsTwice(rest, i, j);
    } else {
      FnsMember(rest, f);
      assert f in multiset(Fns(rest));
    }
  }

  lemma {:induction false} LiveTwice(ss: seq<seq<Frame>>, t: nat, i: nat, u: nat, j: nat)
    requires t < |ss| && i < |ss[t]| && u < |ss| && j < |ss[u]| && (t < u || (t == u && i < j))
    requires ss[t][i].Exec? && ss[u][j].Exec? && ss[t][i].fn == ss[u][j].fn
    ensures multiset(Live(ss))[ss[t][i].fn] > 1
  {
    var f := ss[t][i].fn;
    if t > 0 {
      LiveTwice(ss[1..], t - 1, i, u - 1, j);
    } else if u == 0 {
      FnsTwice(ss[0], i, j);
    } else {
      FnsMember(ss[0], f);
      LiveMember(ss[1..], f);
      assert ss[1..][u - 1] == ss[u];
    }
  }

  /** A running function was submitted under its number, and is neither queued nor finished nor running elsewhere. */
  lemma RunsHere(s: State, t: nat, i: nat)
    requires Inv(s) && t < |s.stacks| && i < |s.stacks[t]| && s.stacks[t][i].Exec?
    ensures var f := s.stacks[t][i].fn;
      && f.id < |s.submitted| && s.submitted[f.id] == f
      && multiset(s.pool.queue)[f] == 0 && multiset(s.finished)[f] == 0 && multiset(Live(s.stacks))[f] == 1
  {
    var f := s.stacks[t][i].fn;
    hide StacksOk, Accounted, SleepersWait, UseCounted, NoLostWakeup, WorkersStay, Live, GroupsOk;
    LiveMember(s.stacks, f);
    assert f in multiset(Live(s.stacks));
    assert (multiset(s.pool.queue) + multiset(Live(s.stacks)) + multiset(s.finished))[f] == multiset(s.submitted)[f];
    Theorems.Distinct(s.submitted, f);
  }

  /** Functions are told apart by their numbers. */
  lemma SubmittedAs(s: State, f: Fn)
    requires Inv(s) && (f in s.pool.queue || f in s.finished)
    ensures f.id < |s.submitted| && s.submitted[f.id] == f
  {
    hide StacksOk, Accounted, SleepersWait, UseCounted, NoLostWakeup, WorkersStay, Live, GroupsOk;
    assert f in multiset(s.pool.queue) + multiset(Live(s.stacks)) + multiset(s.finished);
    assert f in multiset(s.submitted);
  }

  /** Frame `i` of thread `t` executes call `c`, and no other frame does. */
  ghost predicate OnlyFrame(workers: nat, stacks: seq<seq<Frame>>, t: nat, i: nat, c: nat) {
    && t < |stacks| && i < |stacks[t]| && CallOf(stacks[t][i]) == c && IsCode(workers, t, stacks[t][i])
    && (forall u, j :: 0 <= u < |stacks| && 0 <= j < |stacks[u]| && CallOf(stacks[u][j]) == c && IsCode(workers, u, stacks[u][j]) ==>
          u == t && j == i)
  }

  lemma CodeFrameIsUnique(s: State, t: nat, i: nat)
    requires Inv(s) && t < |s.stacks| && i < |s.stacks[t]| && IsCode(s.workers, t, s.stacks[t][i])
    ensures OnlyFrame(s.workers, s.stacks, t, i, CallOf(s.stacks[t][i]))
  {
    hide Accounted, SleepersWait, UseCounted, NoLostWakeup, WorkersStay, Live, GroupsOk, Conserved;
    var c := CallOf(s.stacks[t][i]);
    forall u, j | 0 <= u < |s.stacks| && 0 <= j < |s.stacks[u]| && CallOf(s.stacks[u][j]) == c && IsCode(s.workers, u, s.stacks[u][j])
      ensures u == t && j == i
    {
      if s.stacks[t][i].Exec? {
        SameFunction(s, t, i, u, j);
      } else {
        assert FrameOk(s.workers, t, s.stacks[t], i, s.owner, s.clock);
        assert FrameOk(s.workers, u, s.stacks[u], j, s.owner, s.clock);
      }
    }
  }

  lemma SameFunction(s: State, t: nat, i: nat, u: nat, j: nat)
    requires Inv(s) && t < |s.stacks| && i < |s.stacks[t]| && u < |s.stacks| && j < |s.stacks[u]|
    requires s.stacks[t][i].Exec? && s.stacks[u][j].Exec? && s.stacks[t][i].fn.id == s.stacks[u][j].fn.id
    ensures u == t && j == i
  {
    hide Inv, Live;
    RunsHere(s, t, i);
    RunsHere(s, u, j);
    if t < u || (t == u && i < j) {
      LiveTwice(s.stacks, t, i, u, j);
    } else if u < t || j < i {
      LiveTwice(s.stacks, u, j, t, i);
    }
  }

  /** A call that runs is neither in the queue nor has its function returned. */
  ghost predicate Running(queue: seq<Fn>, finished: seq<Fn>, c: nat) {
    && (forall k :: 0 <= k < |queue| ==> queue[k].id + 1 != c)
    && (forall k :: 0 <= k < |finished| ==> finished[k].id + 1 != c)
  }

  lemma CodeFrameRuns(s: State, t: nat, i: nat)
    requires Inv(s) && t < |s.stacks| && i < |s.stacks[t]| && IsCode(s.workers, t, s.stacks[t][i])
    ensures Running(s.pool.queue, s.finished, CallOf(s.stacks[t][i]))
  {
    hide Inv, Live;
    if s.stacks[t][i].Exec? {
      RunsHere(s, t, i);
      forall k | 0 <= k < |s.pool.queue|
        ensures s.pool.queue[k].id != s.stacks[t][i].fn.id
      {
        SubmittedAs(s, s.pool.queue[k]);
      }
      forall k | 0 <= k < |s.finished|
        ensures s.finished[k].id != s.stacks[t][i].fn.id
      {
        SubmittedAs(s, s.finished[k]);
      }
    }
  }

  // ---------------------------------------------------------------------------
  // How frames and calls change
  // ---------------------------------------------------------------------------

  lemma FramesPush(calls: seq<Call>, owner: seq<nat>, workers: nat, stacks: seq<seq<Frame>>, t: nat, f: Frame)
    requires FramesFit(calls, owner, workers, stacks) && t < |stacks|
    requires FrameFits(calls, owner, workers, t, stacks[t] + [f], |stacks[t]|)
    ensures FramesFit(calls, owner, workers, stacks[t := stacks[t] + [f]])
  {
    var stack := stacks[t] + [f];
    assert StackFits(calls, owner, workers, t, stack) by {
      assert StackFits(calls, owner, workers, t, stacks[t]);
      forall i | 0 <= i < |stack|
        ensures FrameFits(calls, owner, workers, t, stack, i)
      {
        if i < |stacks[t]| {
          assert FrameFits(calls, owner, workers, t, stacks[t], i);
        }
      }
    }
  }

  lemma FramesCut(calls: seq<Call>, owner: seq<nat>, workers: nat, stacks: seq<seq<Frame>>, t: nat, n: nat)
    requires FramesFit(calls, owner, workers, stacks) && t < |stacks| && n <= |stacks[t]|
    ensures FramesFit(calls, owner, workers, stacks[t := stacks[t][..n]])
  {
    var stack := stacks[t][..n];
    assert StackFits(calls, owner, workers, t, stack) by {
      assert StackFits(calls, owner, workers, t, stacks[t]);
      forall i | 0 <= i < |stack|
        ensures FrameFits(calls, owner, workers, t, stack, i)
      {
        assert FrameFits(calls, owner, workers, t, stacks[t], i);
      }
    }
  }

  /** More calls and more groups do not matter. */
  lemma FramesGrow(calls: seq<Call>, calls': seq<Call>, owner: seq<nat>, owner': seq<nat>, workers: nat, stacks: seq<seq<Frame>>)
    requires FramesFit(calls, owner, workers, stacks) && calls <= calls' && owner <= owner'
    ensures FramesFit(calls', owner', workers, stacks)
  {
    forall t | 0 <= t < |stacks|
      ensures StackFits(calls', owner', workers, t, stacks[t])
    {
      assert StackFits(calls, owner, workers, t, stacks[t]);
      forall i | 0 <= i < |stacks[t]|
        ensures FrameFits(calls', owner', workers, t, stacks[t], i)
      {
        assert FrameFits(calls, owner, workers, t, stacks[t], i);
      }
    }
  }

  /** The call on top of a stack changes its phase. */
  lemma FramesPhase(calls: seq<Call>, owner: seq<nat>, workers: nat, stacks: seq<seq<Frame>>, t: nat, c: nat, p: Phase)
    requires FramesFit(calls, owner, workers, stacks) && t < |stacks| && stacks[t] != [] && c < |calls|
    requires OnlyFrame(workers, stacks, t, |stacks[t]| - 1, c)
    requires stacks[t][|stacks[t]| - 1].Exec? && HasGroup(p) ==> p.g < |owner| && owner[p.g] == stacks[t][|stacks[t]| - 1].stamp
    ensures FramesFit(SetPhase(calls, c, p), owner, workers, stacks)
  {
    var calls' := SetPhase(calls, c, p);
    forall u | 0 <= u < |stacks|
      ensures StackFits(calls', owner, workers, u, stacks[u])
    {
      assert StackFits(calls, owner, workers, u, stacks[u]);
      forall i | 0 <= i < |stacks[u]|
        ensures FrameFits(calls', owner, workers, u, stacks[u], i)
      {
        assert FrameFits(calls, owner, workers, u, stacks[u], i);
        if stacks[u][i].Join? {
          assert CallOf(stacks[u][i - 1]) != c;
        }
      }
    }
  }

  lemma JoinsPush(calls: seq<Call>, workers: nat, stacks: seq<seq<Frame>>, t: nat, f: Frame)
    requires JoinsAbove(calls, workers, stacks) && t < |stacks| && !Waits(calls, workers, t, f)
    ensures JoinsAbove(calls, workers, stacks[t := stacks[t] + [f]])
  {
    var stacks' := stacks[t := stacks[t] + [f]];
    forall u, i | 0 <= u < |stacks'| && 0 <= i < |stacks'[u]| && Waits(calls, workers, u, stacks'[u][i])
      ensures i + 1 < |stacks'[u]| && stacks'[u][i + 1].Join?
    {
      assert i < |stacks[u]| && Waits(calls, workers, u, stacks[u][i]);
    }
  }

  /** The top frame goes; it is not the join of a call that goes on waiting. */
  lemma JoinsPop(calls: seq<Call>, workers: nat, stacks: seq<seq<Frame>>, t: nat)
    requires JoinsAbove(calls, workers, stacks) && t < |stacks| && stacks[t] != []
    requires stacks[t][|stacks[t]| - 1].Join? && |stacks[t]| > 1 ==> !Waits(calls, workers, t, stacks[t][|stacks[t]| - 2])
    ensures JoinsAbove(calls, workers, stacks[t := stacks[t][..|stacks[t]| - 1]])
  {
    var stacks' := stacks[t := stacks[t][..|stacks[t]| - 1]];
    forall u, i | 0 <= u < |stacks'| && 0 <= i < |stacks'[u]| && Waits(calls, workers, u, stacks'[u][i])
      ensures i + 1 < |stacks'[u]| && stacks'[u][i + 1].Join?
    {
      assert Waits(calls, workers, u, stacks[u][i]);
    }
  }

  lemma JoinsExit(calls: seq<Call>, workers: nat, stacks: seq<seq<Frame>>, t: nat)
    requires JoinsAbove(calls, workers, stacks) && t < |stacks|
    ensures JoinsAbove(calls, workers, stacks[t := []])
  {
  }

  lemma JoinsPhase(calls: seq<Call>, workers: nat, stacks: seq<seq<Frame>>, c: nat, p: Phase)
    requires JoinsAbove(calls, workers, stacks) && c < |calls| && !p.Joining?
    ensures JoinsAbove(SetPhase(calls, c, p), workers, stacks)
  {
    var calls' := SetPhase(calls, c, p);
    forall u, i | 0 <= u < |stacks| && 0 <= i < |stacks[u]| && Waits(calls', workers, u, stacks[u][i])
      ensures i + 1 < |stacks[u]| && stacks[u][i + 1].Join?
    {
      assert Waits(calls, workers, u, stacks[u][i]);
    }
  }

  /** The call on top of a stack enters its join. */
  lemma JoinsWait(calls: seq<Call>, workers: nat, stacks: seq<seq<Frame>>, t: nat, c: nat, p: Phase, g: nat)
    requires JoinsAbove(calls, workers, stacks) && t < |stacks| && stacks[t] != [] && c < |calls|
    requires OnlyFrame(workers, stacks, t, |stacks[t]| - 1, c)
    ensures JoinsAbove(SetPhase(calls, c, p), workers, stacks[t := stacks[t] + [ForkJoinPool.Join(g)]])
  {
    var calls', stacks' := SetPhase(calls, c, p), stacks[t := stacks[t] + [ForkJoinPool.Join(g)]];
    forall u, i | 0 <= u < |stacks'| && 0 <= i < |stacks'[u]| && Waits(calls', workers, u, stacks'[u][i])
      ensures i + 1 < |stacks'[u]| && stacks'[u][i + 1].Join?
    {
      assert i < |stacks[u]| && stacks'[u][i] == stacks[u][i];
      if CallOf(stacks[u][i]) != c {
        assert Waits(calls, workers, u, stacks[u][i]);
      }
    }
  }

  lemma JoinsGrow(calls: seq<Call>, k: Call, workers: nat, stacks: seq<seq<Frame>>)
    requires JoinsAbove(calls, workers, stacks) && !k.phase.Joining?
    ensures JoinsAbove(calls + [k], workers, stacks)
  {
    forall u, i | 0 <= u < |stacks| && 0 <= i < |stacks[u]| && Waits(calls + [k], workers, u, stacks[u][i])
      ensures i + 1 < |stacks[u]| && stacks[u][i + 1].Join?
    {
      assert Waits(calls, workers, u, stacks[u][i]);
    }
  }

  lemma ListsPhase(calls: seq<Call>, queue: seq<Fn>, finished: seq<Fn>, c: nat, p: Phase)
    requires QueueReady(calls, queue) && FinishedDone(calls, finished) && c < |calls| && Running(queue, finished, c)
    ensures QueueReady(SetPhase(calls, c, p), queue) && FinishedDone(SetPhase(calls, c, p), finished)
  {
  }

  // ---------------------------------------------------------------------------
  // One lemma per kind of step
  // ---------------------------------------------------------------------------

  /** A step of the pool alone keeps the pool's invariant and makes no explicit work. */
  lemma PoolStep(s: State, act: Action)
    requires Inv(s) && Enabled(s, act) && !act.BeginWork? && !act.EndWork? && NoExplicitWork(s.explicitWork) && s.workers < |s.stacks|
    ensures var s' := Apply(s, act);
      && Inv(s') && NoExplicitWork(s'.explicitWork) && s'.workers == s.workers && |s'.stacks| == |s.stacks|
      && (s'.stopped == s.stopped || act.Stop?)
  {
    hide Inv, Enabled, Apply;
    KeepInv(s, act);
    StepKeepsSizes(s, act);
  }

  lemma StepKeepsSizes(s: State, act: Action)
    requires Enabled(s, act) && !act.BeginWork? && !act.EndWork?
    ensures var s' := Apply(s, act);
      && s'.workers == s.workers && |s'.stacks| == |s.stacks|
      && (s'.explicitWork == s.explicitWork || s'.explicitWork == s.explicitWork + [0])
      && (s'.stopped == s.stopped || act.Stop?)
  {
    hide WorkStarted, WorkFinished, Enqueued, CanFinish;
  }

  lemma KeepTakeCall(x: System, t: nat)
    requires SysInv(x) && Enabled(x.s, Take(t))
    ensures SysInv(x.(s := Apply(x.s, Take(t))))
  {
    hide Inv, Tree, JoinsAbove, CallsFit, FinishedDone, GroupsFit, FramesFit;
    PoolStep(x.s, Take(t));
    var f := x.s.pool.queue[0];
    FramesPush(x.calls, x.s.owner, x.s.workers, x.s.stacks, t, Exec(f, x.s.clock + 1));
    JoinsPush(x.calls, x.s.workers, x.s.stacks, t, Exec(f, x.s.clock + 1));
  }

  lemma KeepExitCall(x: System, t: nat)
    requires SysInv(x) && Enabled(x.s, Exit(t))
    ensures SysInv(x.(s := Apply(x.s, Exit(t))))
  {
    hide Inv, Tree, JoinsAbove, CallsFit, FinishedDone, QueueReady, GroupsFit, FramesFit;
    PoolStep(x.s, Exit(t));
    FramesCut(x.calls, x.s.owner, x.s.workers, x.s.stacks, t, 0);
    JoinsExit(x.calls, x.s.workers, x.s.stacks, t);
    assert x.s.stacks[t][..0] == [];
  }

  lemma KeepBackground(x: System, act: Action)
    requires SysInv(x) && Can(x, Background(act))
    ensures SysInv(Do(x, Background(act)))
  {
    if act.Take? {
      KeepTakeCall(x, act.t);
    } else if act.Exit? {
      KeepExitCall(x, act.t);
    } else {
      hide Inv, Tree, JoinsAbove, CallsFit, FinishedDone, QueueReady, GroupsFit, FramesFit;
      PoolStep(x.s, act);
    }
  }

  /** What a step may rely on about the call in a code frame. */
  lemma ActiveCall(x: System, t: nat, i: nat)
    requires SysInv(x) && t < |x.s.stacks| && i < |x.s.stacks[t]| && IsCode(x.s.workers, t, x.s.stacks[t][i])
    ensures var c := CallOf(x.s.stacks[t][i]);
      && OnlyFrame(x.s.workers, x.s.stacks, t, i, c) && Running(x.s.pool.queue, x.s.finished, c)
  {
    hide Inv, Tree, JoinsAbove, CallsFit, FinishedDone, QueueReady, GroupsFit, FramesFit, OnlyFrame, Running;
    CodeFrameIsUnique(x.s, t, i);
    CodeFrameRuns(x.s, t, i);
  }

  /** A call changes its phase while the pool stays as it is. */
  lemma KeepPhase(x: System, t: nat, p: Phase, a': seq<real>)
    requires SysInv(x) && Runs(x, t) && !Current(x, t).phase.Finished? && !HasGroup(Current(x, t).phase) && !HasGroup(p)
    requires |a'| == |x.a| && (p.Sorting? || p.Merging? ==> |p.start| == Current(x, t).n)
    ensures SysInv(x.(calls := SetPhase(x.calls, CallOf(Top(x.s, t)), p), a := a'))
  {
    var c := CallOf(Top(x.s, t));
    hide Inv, Tree, JoinsAbove, CallsFit, FinishedDone, QueueReady, FramesFit;
    ActiveCall(x, t, |x.s.stacks[t]| - 1);
    hide OnlyFrame, Running;
    TreeUpdate(x.calls, c, p);
    FramesPhase(x.calls, x.s.owner, x.s.workers, x.s.stacks, t, c, p);
    ListsPhase(x.calls, x.s.pool.queue, x.s.finished, c, p);
    FitPhase(x.calls, c, p, x.a, a');
    JoinsPhase(x.calls, x.s.workers, x.s.stacks, c, p);
  }

  lemma FitPhase(calls: seq<Call>, c: nat, p: Phase, a: seq<real>, a': seq<real>)
    requires CallsFit(calls, a) && c < |calls| && |a'| == |a|
    ensures CallsFit(SetPhase(calls, c, p), a')
  {
  }

  /** What the invariant says of one call and of the frame that runs it. */
  lemma CallFits(x: System, t: nat, i: nat)
    requires SysInv(x) && t < |x.s.stacks| && i < |x.s.stacks[t]| && IsCode(x.s.workers, t, x.s.stacks[t][i])
    requires CallOf(x.s.stacks[t][i]) < |x.calls|
    ensures var c := CallOf(x.s.stacks[t][i]);
      ChildrenOk(x.calls, c) && Fits(x.calls[c], x.a) && GroupFits(x.calls[c].phase, x.s.submitted, |x.s.pool.count|)
    ensures FrameFits(x.calls, x.s.owner, x.s.workers, t, x.s.stacks[t], i)
    ensures |x.s.owner| == |x.s.pool.count|
  {
    assert StackFits(x.calls, x.s.owner, x.s.workers, t, x.s.stacks[t]);
    hide QueueReady, FinishedDone, StacksOk, Accounted, SleepersWait, UseCounted, NoLostWakeup, WorkersStay, Live, GroupsOk, Conserved;
  }

  lemma AfterNewGroup(s: State, t: nat)
    requires InCode(s, t)
    ensures Enabled(s, NewGroup(t))
    ensures Apply(s, NewGroup(t)) ==
      s.(pool := s.pool.(count := s.pool.count + [0]), explicitWork := s.explicitWork + [0], owner := s.owner + [Stamp(Top(s, t))])
  {
  }

  /** A call above the threshold creates its group. */
  lemma KeepNewGroupCall(x: System, t: nat)
    requires SysInv(x) && Can(x, Begin(t)) && Current(x, t).n > S.THRESHOLD
    ensures SysInv(Do(x, Begin(t)))
  {
    hide Inv, Tree, JoinsAbove, CallsFit, FinishedDone, QueueReady, FramesFit, GroupsFit;
    AfterNewGroup(x.s, t);
    var c, p := CallOf(Top(x.s, t)), Made(|x.s.pool.count|);
    var owner' := x.s.owner + [Stamp(Top(x.s, t))];
    assert Do(x, Begin(t)) == x.(s := Apply(x.s, NewGroup(t)), calls := SetPhase(x.calls, c, p));
    assert x.calls[c].phase.Ready?;
    hide Do, Can, Apply, Enabled;
    CallFits(x, t, |x.s.stacks[t]| - 1);
    ActiveCall(x, t, |x.s.stacks[t]| - 1);
    hide OnlyFrame, Running;
    PoolStep(x.s, NewGroup(t));
    TreeUpdate(x.calls, c, p);
    FramesGrow(x.calls, x.calls, x.s.owner, owner', x.s.workers, x.s.stacks);
    FramesPhase(x.calls, owner', x.s.workers, x.s.stacks, t, c, p);
    ListsPhase(x.calls, x.s.pool.queue, x.s.finished, c, p);
    FitPhase(x.calls, c, p, x.a, x.a);
    JoinsPhase(x.calls, x.s.workers, x.s.stacks, c, p);
    GroupsGrow(x.calls, x.s.submitted, |x.s.pool.count|);
    GroupsPhase(x.calls, x.s.submitted, |x.s.pool.count| + 1, c, p);
  }

  lemma GroupsGrow(calls: seq<Call>, submitted: seq<Fn>, groups: nat)
    requires GroupsFit(calls, submitted, groups)
    ensures GroupsFit(calls, submitted, groups + 1)
  {
  }

  lemma AfterStartJoin(s: State, t: nat, g: nat)
    requires Enabled(s, StartJoin(t, g))
    ensures Apply(s, StartJoin(t, g)) == s.(stacks := s.stacks[t := s.stacks[t] + [ForkJoinPool.Join(g)]])
  {
  }

  /** The parts of the invariant that a change of phase on top of a stack keeps. */
  lemma PhaseParts(x: System, t: nat, p: Phase)
    requires SysInv(x) && Runs(x, t)
    requires Top(x.s, t).Exec? && HasGroup(p) ==> p.g < |x.s.owner| && x.s.owner[p.g] == Top(x.s, t).stamp
    ensures var calls' := SetPhase(x.calls, CallOf(Top(x.s, t)), p);
      && CallsFit(calls', x.a) && QueueReady(calls', x.s.pool.queue) && FinishedDone(calls', x.s.finished)
      && FramesFit(calls', x.s.owner, x.s.workers, x.s.stacks)
  {
    var c := CallOf(Top(x.s, t));
    hide Inv, Tree, JoinsAbove, CallsFit, FinishedDone, QueueReady, FramesFit, GroupsFit;
    ActiveCall(x, t, |x.s.stacks[t]| - 1);
    hide OnlyFrame, Running;
    FramesPhase(x.calls, x.s.owner, x.s.workers, x.s.stacks, t, c, p);
    ListsPhase(x.calls, x.s.pool.queue, x.s.finished, c, p);
    FitPhase(x.calls, c, p, x.a, x.a);
  }

  lemma GroupsPhase(calls: seq<Call>, submitted: seq<Fn>, groups: nat, c: nat, p: Phase)
    requires GroupsFit(calls, submitted, groups) && c < |calls| && GroupFits(p, submitted, groups)
    ensures GroupsFit(SetPhase(calls, c, p), submitted, groups)
  {
  }

  lemma KeepWaitCall(x: System, t: nat)
    requires SysInv(x) && Can(x, Wait(t))
    ensures SysInv(Do(x, Wait(t)))
  {
    hide Inv, Tree, JoinsAbove, CallsFit, FinishedDone, QueueReady, FramesFit, GroupsFit;
    var c, q := CallOf(Top(x.s, t)), Current(x, t).phase;
    var p := Joining(q.g, q.left, q.right);
    var act, calls' := StartJoin(t, q.g), SetPhase(x.calls, c, p);
    assert Do(x, Wait(t)) == x.(s := Apply(x.s, act), calls := calls');
    assert Enabled(x.s, act);
    hide Do, Can;
    CallFits(x, t, |x.s.stacks[t]| - 1);
    AfterStartJoin(x.s, t, q.g);
    hide Apply, Enabled;
    PoolStep(x.s, act);
    TreeUpdate(x.calls, c, p);
    PhaseParts(x, t, p);
    ActiveCall(x, t, |x.s.stacks[t]| - 1);
    hide OnlyFrame, Running;
    JoinsWait(x.calls, x.s.workers, x.s.stacks, t, c, p, q.g);
    GroupsPhase(x.calls, x.s.submitted, |x.s.pool.count|, c, p);
    FramesPush(calls', x.s.owner, x.s.workers, x.s.stacks, t, ForkJoinPool.Join(q.g));
  }

  lemma KeepLeaveCall(x: System, t: nat)
    requires SysInv(x) && Can(x, Leave(t))
    ensures SysInv(Do(x, Leave(t)))
  {
    hide Inv, Tree, JoinsAbove, CallsFit, QueueReady, GroupsFit, FramesFit;
    PoolStep(x.s, Return(t));
    FramesCut(x.calls, x.s.owner, x.s.workers, x.s.stacks, t, |x.s.stacks[t]| - 1);
    JoinsPop(x.calls, x.s.workers, x.s.stacks, t);
  }

  /** When a thread leaves a join, both halves of the call that waited are done. */
  lemma HalvesAreDone(x: System, t: nat)
    requires SysInv(x) && Enabled(x.s, JoinReturn(t))
    ensures Resumes(x, t)
    ensures var i := |x.s.stacks[t]| - 2; var c := CallOf(x.s.stacks[t][i]);
      && IsCode(x.s.workers, t, x.s.stacks[t][i])
      && x.calls[c].phase.left < |x.calls| && x.calls[x.calls[c].phase.left].phase.Finished?
      && x.calls[c].phase.right < |x.calls| && x.calls[x.calls[c].phase.right].phase.Finished?
  {
    var i := |x.s.stacks[t]| - 2;
    assert StackFits(x.calls, x.s.owner, x.s.workers, t, x.s.stacks[t]);
    assert FrameFits(x.calls, x.s.owner, x.s.workers, t, x.s.stacks[t], i + 1);
    hide JoinsAbove, FramesFit, StackFits, Inv, Tree, CallsFit, QueueReady;
    var p := x.calls[CallOf(x.s.stacks[t][i])].phase;
    assert GroupFits(p, x.s.submitted, |x.s.pool.count|);
    FunctionIsDone(x, p.left);
    FunctionIsDone(x, p.right);
  }

  lemma FunctionIsDone(x: System, c: nat)
    requires SysInv(x) && 0 < c <= |x.s.submitted|
    requires x.s.submitted[c - 1].group < |x.s.pool.count| && x.s.pool.count[x.s.submitted[c - 1].group] == 0
    ensures c < |x.calls| && x.calls[c].phase.Finished?
  {
    var f := x.s.submitted[c - 1];
    assert f.id == c - 1;
    hide Inv, Tree, JoinsAbove, CallsFit, QueueReady, GroupsFit, FramesFit;
    Theorems.GroupDone(x.s, f);
    var k :| 0 <= k < |x.s.finished| && x.s.finished[k] == f;
  }

  lemma AfterJoinReturn(s: State, t: nat)
    requires Enabled(s, JoinReturn(t))
    ensures Apply(s, JoinReturn(t)) == s.(stacks := s.stacks[t := s.stacks[t][..|s.stacks[t]| - 1]])
  {
  }

  lemma KeepResumeCall(x: System, t: nat)
    requires SysInv(x) && Can(x, Resume(t))
    ensures SysInv(Do(x, Resume(t)))
  {
    hide Inv, Tree, JoinsAbove, CallsFit, FinishedDone, QueueReady, FramesFit, GroupsFit;
    HalvesAreDone(x, t);
    AfterJoinReturn(x.s, t);
    var i := |x.s.stacks[t]| - 2;
    var c := CallOf(x.s.stacks[t][i]);
    CallFits(x, t, i);
    var p := Merging(x.a[x.calls[c].lo..x.calls[c].lo + x.calls[c].n]);
    var stacks' := x.s.stacks[t := x.s.stacks[t][..i + 1]];
    assert Do(x, Resume(t)) == x.(s := Apply(x.s, JoinReturn(t)), calls := SetPhase(x.calls, c, p));
    hide Do, Can;
    ActiveCall(x, t, i);
    CutKeepsOnly(x.s.workers, x.s.stacks, t, i, c);
    PoolStep(x.s, JoinReturn(t));
    hide Apply, Enabled, OnlyFrame, Running;
    TreeUpdate(x.calls, c, p);
    FramesCut(x.calls, x.s.owner, x.s.workers, x.s.stacks, t, i + 1);
    FramesPhase(x.calls, x.s.owner, x.s.workers, stacks', t, c, p);
    ListsPhase(x.calls, x.s.pool.queue, x.s.finished, c, p);
    FitPhase(x.calls, c, p, x.a, x.a);
    GroupsPhase(x.calls, x.s.submitted, |x.s.pool.count|, c, p);
    JoinsPhase(x.calls, x.s.workers, x.s.stacks, c, p);
    JoinsPop(SetPhase(x.calls, c, p), x.s.workers, x.s.stacks, t);
  }

  lemma CutKeepsOnly(workers: nat, stacks: seq<seq<Frame>>, t: nat, i: nat, c: nat)
    requires OnlyFrame(workers, stacks, t, i, c)
    ensures OnlyFrame(workers, stacks[t := stacks[t][..i + 1]], t, i, c)
  {
    var stacks' := stacks[t := stacks[t][..i + 1]];
    forall u, j | 0 <= u < |stacks'| && 0 <= j < |stacks'[u]| && CallOf(stacks'[u][j]) == c && IsCode(workers, u, stacks'[u][j])
      ensures u == t && j == i
    {
      assert stacks'[u][j] == stacks[u][j];
    }
  }

  /** The calls and groups after a dispatch. */
  lemma ForkFits(x: System, c: nat)
    requires Tree(x.calls) && c < |x.calls| == |x.s.submitted| + 1 && (x.calls[c].phase.Made? || x.calls[c].phase.Half?)
    requires CallsFit(x.calls, x.a) && GroupsFit(x.calls, x.s.submitted, |x.s.pool.count|)
    ensures CallsFit(AfterFork(x.calls, c), x.a)
    ensures GroupsFit(AfterFork(x.calls, c), x.s.submitted + [Fn(|x.s.submitted|, x.calls[c].phase.g)], |x.s.pool.count|)
  {
    var calls', submitted' := AfterFork(x.calls, c), x.s.submitted + [Fn(|x.s.submitted|, x.calls[c].phase.g)];
    forall k | 0 <= k < |calls'|
      ensures Fits(calls'[k], x.a) && GroupFits(calls'[k].phase, submitted', |x.s.pool.count|)
    {
      assert Fits(x.calls[c], x.a) && GroupFits(x.calls[c].phase, x.s.submitted, |x.s.pool.count|);
      if k < |x.calls| {
        assert Fits(x.calls[k], x.a) && GroupFits(x.calls[k].phase, x.s.submitted, |x.s.pool.count|);
      }
    }
  }

  lemma ForkJoins(calls: seq<Call>, workers: nat, stacks: seq<seq<Frame>>, c: nat)
    requires c < |calls| && (calls[c].phase.Made? || calls[c].phase.Half?) && JoinsAbove(calls, workers, stacks)
    ensures JoinsAbove(AfterFork(calls, c), workers, stacks)
  {
    var calls' := AfterFork(calls, c);
    var p, k := calls'[c].phase, calls'[|calls|];
    assert calls' == SetPhase(calls, c, p) + [k] && !p.Joining? && !k.phase.Joining?;
    hide JoinsAbove, AfterFork;
    JoinsPhase(calls, workers, stacks, c, p);
    JoinsGrow(SetPhase(calls, c, p), k, workers, stacks);
  }

  /** The frames and lists after a dispatch, before the new function goes anywhere. */
  lemma ForkFrames(x: System, t: nat)
    requires SysInv(x) && Runs(x, t) && (Current(x, t).phase.Made? || Current(x, t).phase.Half?)
    ensures var calls' := AfterFork(x.calls, CallOf(Top(x.s, t)));
      && FramesFit(calls', x.s.owner, x.s.workers, x.s.stacks)
      && QueueReady(calls', x.s.pool.queue) && FinishedDone(calls', x.s.finished)
  {
    var c := CallOf(Top(x.s, t));
    var calls' := AfterFork(x.calls, c);
    var p := calls'[c].phase;
    hide Inv, Tree, JoinsAbove, CallsFit, GroupsFit, FramesFit;
    CallFits(x, t, |x.s.stacks[t]| - 1);
    ActiveCall(x, t, |x.s.stacks[t]| - 1);
    hide OnlyFrame;
    FramesPhase(x.calls, x.s.owner, x.s.workers, x.s.stacks, t, c, p);
    ListsPhase(x.calls, x.s.pool.queue, x.s.finished, c, p);
    hide QueueReady, FinishedDone, Running, FrameFits;
    assert SetPhase(x.calls, c, p) <= calls';
    FramesGrow(SetPhase(x.calls, c, p), calls', x.s.owner, x.s.owner, x.s.workers, x.s.stacks);
    ListsGrow(SetPhase(x.calls, c, p), calls', x.s.pool.queue, x.s.finished);
  }

  lemma ListsGrow(calls: seq<Call>, calls': seq<Call>, queue: seq<Fn>, finished: seq<Fn>)
    requires QueueReady(calls, queue) && FinishedDone(calls, finished) && calls <= calls'
    ensures QueueReady(calls', queue) && FinishedDone(calls', finished)
  {
  }

  /** A dispatched function is queued, or runs on top of the thread that dispatched it. */
  lemma AfterDispatch(s: State, t: nat, g: nat, w: nat)
    requires Enabled(s, Dispatch(t, g, w))
    ensures var s', f := Apply(s, Dispatch(t, g, w)), Fn(|s.submitted|, g);
      && s'.submitted == s.submitted + [f] && s'.finished == s.finished && s'.owner == s.owner && s'.workers == s.workers
      && |s'.pool.count| == |s.pool.count|
      && if Loaded(s.pool, s.workers)
         then s'.pool.queue == s.pool.queue && s'.stacks == s.stacks[t := s.stacks[t] + [Exec(f, s.clock + 1)]]
         else s'.pool.queue == s.pool.queue + [f] && s'.stacks == s.stacks
  {
  }

  lemma KeepForkCall(x: System, t: nat, w: nat)
    requires SysInv(x) && Can(x, Fork(t, w))
    ensures SysInv(Do(x, Fork(t, w)))
  {
    hide Inv, Tree, JoinsAbove, CallsFit, FinishedDone, QueueReady, GroupsFit, FramesFit;
    var c := CallOf(Top(x.s, t));
    var g := x.calls[c].phase.g;
    var act, calls', f := Dispatch(t, g, w), AfterFork(x.calls, c), Fn(|x.s.submitted|, g);
    assert Do(x, Fork(t, w)) == x.(s := Apply(x.s, act), calls := calls');
    assert Enabled(x.s, act);
    hide Do, Can;
    AfterDispatch(x.s, t, g, w);
    hide Apply, Enabled, Loaded;
    PoolStep(x.s, act);
    TreeFork(x.calls, c);
    ForkFits(x, c);
    ForkFrames(x, t);
    ForkJoins(x.calls, x.s.workers, x.s.stacks, c);
    assert f.id + 1 < |calls'| && calls'[f.id + 1].phase.Ready?;
    hide AfterFork;
    if Loaded(x.s.pool, x.s.workers) {
      FramesPush(calls', x.s.owner, x.s.workers, x.s.stacks, t, Exec(f, x.s.clock + 1));
      JoinsPush(calls', x.s.workers, x.s.stacks, t, Exec(f, x.s.clock + 1));
    } else {
      QueuePush(calls', x.s.pool.queue, f);
    }
  }

  lemma QueuePush(calls: seq<Call>, queue: seq<Fn>, f: Fn)
    requires QueueReady(calls, queue) && f.id + 1 < |calls| && calls[f.id + 1].phase.Ready?
    ensures QueueReady(calls, queue + [f])
  {
  }

  /** Every step keeps the invariant. */
  lemma KeepSysInv(x: System, m: Move)
    requires SysInv(x) && Can(x, m)
    ensures SysInv(Do(x, m))
  {
    hide SysInv;
    match m
    case Background(act) => KeepBackground(x, act);
    case Begin(t) => KeepBegin(x, t);
    case Fork(t, w) => KeepForkCall(x, t, w);
    case Wait(t) => KeepWaitCall(x, t);
    case Resume(t) => KeepResumeCall(x, t);
    case Write(t, a') => KeepWrite(x, t, a');
    case End(t, a') => KeepPhase(x, t, Finished, a');
    case Leave(t) => KeepLeaveCall(x, t);
  }

  lemma KeepBegin(x: System, t: nat)
    requires SysInv(x) && Can(x, Begin(t))
    ensures SysInv(Do(x, Begin(t)))
  {
    hide SysInv;
    var k := Current(x, t);
    if k.n > S.THRESHOLD {
      KeepNewGroupCall(x, t);
    } else {
      KeepPhase(x, t, Sorting(x.a[k.lo..k.lo + k.n]), x.a);
    }
  }

  lemma KeepWrite(x: System, t: nat, a': seq<real>)
    requires SysInv(x) && Can(x, Write(t, a'))
    ensures SysInv(Do(x, Write(t, a')))
  {
    hide Inv, Tree, JoinsAbove, FinishedDone, QueueReady, GroupsFit, FramesFit;
  }
}
