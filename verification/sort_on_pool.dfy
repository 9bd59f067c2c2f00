/**
 fork_join_sort as it runs on the fork/join pool. The main thread makes the first
 call; every function in the pool is a call. A call above the threshold creates a
 group, dispatches its two halves, joins the group and merges. Each step is a step
 of the pool, a write of std::sort or std::inplace_merge, or a step of a call's own.
 The calls form a tree, and the tree denotes a task of the schedule-free sort.
 */
module SortOnPool {
  import opened ForkJoinPool
  import S = ForkJoinSort

  // ---------------------------------------------------------------------------
  // Calls
  // ---------------------------------------------------------------------------

  /** Where a call is; `g` is its group and `left` and `right` are the calls it has dispatched. */
  datatype Phase =
    | Ready
    | Sorting(start: seq<real>)
    | Made(g: nat)
    | Half(g: nat, left: nat)
    | Both(g: nat, left: nat, right: nat)
    | Joining(g: nat, left: nat, right: nat)
    | Merging(start: seq<real>)
    | Finished

  /** A call on the range of length `n` that starts at `lo`; `parent` dispatched it. */
  datatype Call = Call(lo: nat, n: nat, parent: nat, phase: Phase)

  /** Call 0 is the main thread's; call `k + 1` is the function submitted as number `k`. */
  datatype System = System(s: State, a: seq<real>, calls: seq<Call>)

  function CallOf(f: Frame): nat {
    if f.Exec? then f.fn.id + 1 else 0
  }

  /** The main thread is the first one that is not a worker. */
  predicate IsCode(workers: nat, t: nat, f: Frame) {
    f.Exec? || (f.Client? && t == workers)
  }

  /** Thread `t` executes a call. */
  predicate Runs(x: System, t: nat) {
    InCode(x.s, t) && IsCode(x.s.workers, t, Top(x.s, t)) && CallOf(Top(x.s, t)) < |x.calls|
  }

  function Current(x: System, t: nat): Call
    requires Runs(x, t)
  {
    x.calls[CallOf(Top(x.s, t))]
  }

  /** Thread `t` is about to leave the join of the call below its top frame. */
  predicate Resumes(x: System, t: nat) {
    && Enabled(x.s, JoinReturn(t)) && |x.s.stacks[t]| > 1
    && CallOf(x.s.stacks[t][|x.s.stacks[t]| - 2]) < |x.calls|
    && x.calls[CallOf(x.s.stacks[t][|x.s.stacks[t]| - 2])].phase.Joining?
  }

  predicate Fits(k: Call, a: seq<real>) {
    k.lo + k.n <= |a|
  }

  // ---------------------------------------------------------------------------
  // Steps
  // ---------------------------------------------------------------------------

  datatype Move =
    | Background(act: Action)              // what workers and joins do by themselves
    | Begin(t: nat)                        // compare n with the threshold
    | Fork(t: nat, w: nat)                 // dispatch the next half
    | Wait(t: nat)                         // enter the join
    | Resume(t: nat)                       // leave the join, call inplace_merge
    | Write(t: nat, a': seq<real>)         // sort or inplace_merge changes the array
    | End(t: nat, a': seq<real>)           // and returns
    | Leave(t: nat)                        // the call returns

  predicate InBackground(x: System, act: Action) {
    act.Take? || act.Sleep? || act.SpuriousWake? || act.Exit? || (act.Stop? && x.calls != [] && x.calls[0].phase.Finished?)
  }

  /** sort or inplace_merge may leave this array when it returns. */
  ghost predicate MayEnd(k: Call, a': seq<real>)
    requires Fits(k, a')
  {
    var r := a'[k.lo..k.lo + k.n];
    match k.phase
    case Sorting(start) => S.SortedPermutation(r, start)
    case Merging(start) =>
      |start| == k.n && (S.Sorted(start[..k.n / 2]) && S.Sorted(start[k.n / 2..]) ==> S.SortedPermutation(r, start))
    case _ => false
  }

  ghost predicate MayWrite(k: Call, a: seq<real>, a': seq<real>) {
    (k.phase.Sorting? || k.phase.Merging?) && Fits(k, a) && S.SameOutside(a, a', k.lo, k.lo + k.n)
  }

  ghost predicate Can(x: System, m: Move) {
    match m
    case Background(act) => InBackground(x, act) && Enabled(x.s, act)
    case Begin(t) => Runs(x, t) && Current(x, t).phase.Ready? && Fits(Current(x, t), x.a)
    case Fork(t, w) =>
      && Runs(x, t) && (Current(x, t).phase.Made? || Current(x, t).phase.Half?)
      && Enabled(x.s, Dispatch(t, Current(x, t).phase.g, w))
    case Wait(t) => Runs(x, t) && Current(x, t).phase.Both? && Enabled(x.s, StartJoin(t, Current(x, t).phase.g))
    case Resume(t) => Resumes(x, t) && Fits(x.calls[CallOf(x.s.stacks[t][|x.s.stacks[t]| - 2])], x.a)
    case Write(t, a') => Runs(x, t) && MayWrite(Current(x, t), x.a, a')
    case End(t, a') => Runs(x, t) && MayWrite(Current(x, t), x.a, a') && MayEnd(Current(x, t), a')
    case Leave(t) => Runs(x, t) && Current(x, t).phase.Finished? && Enabled(x.s, Return(t))
  }

  function SetPhase(calls: seq<Call>, c: nat, p: Phase): seq<Call>
    requires c < |calls|
  {
    calls[c := calls[c].(phase := p)]
  }

  /** The calls after call `c` has dispatched its next half. */
  function AfterFork(calls: seq<Call>, c: nat): seq<Call>
    requires c < |calls| && (calls[c].phase.Made? || calls[c].phase.Half?)
  {
    var k := calls[c];
    match k.phase
    case Made(g) => SetPhase(calls, c, Half(g, |calls|)) + [Call(k.lo, k.n / 2, c, Ready)]
    case Half(g, l) => SetPhase(calls, c, Both(g, l, |calls|)) + [Call(k.lo + k.n / 2, k.n - k.n / 2, c, Ready)]
  }

  ghost function Do(x: System, m: Move): System
    requires Can(x, m)
  {
    match m
    case Background(act) => x.(s := Apply(x.s, act))
    case Begin(t) =>
      var c, k := CallOf(Top(x.s, t)), Current(x, t);
      if k.n > S.THRESHOLD
      then x.(s := Apply(x.s, NewGroup(t)), calls := SetPhase(x.calls, c, Made(|x.s.pool.count|)))
      else x.(calls := SetPhase(x.calls, c, Sorting(x.a[k.lo..k.lo + k.n])))
    case Fork(t, w) =>
      x.(s := Apply(x.s, Dispatch(t, Current(x, t).phase.g, w)), calls := AfterFork(x.calls, CallOf(Top(x.s, t))))
    case Wait(t) =>
      var p := Current(x, t).phase;
      x.(s := Apply(x.s, StartJoin(t, p.g)), calls := SetPhase(x.calls, CallOf(Top(x.s, t)), Joining(p.g, p.left, p.right)))
    case Resume(t) =>
      var c := CallOf(x.s.stacks[t][|x.s.stacks[t]| - 2]);
      x.(s := Apply(x.s, JoinReturn(t)),
         calls := SetPhase(x.calls, c, Merging(x.a[x.calls[c].lo..x.calls[c].lo + x.calls[c].n])))
    case Write(t, a') => x.(a := a')
    case End(t, a') => x.(a := a', calls := SetPhase(x.calls, CallOf(Top(x.s, t)), Finished))
    case Leave(t) => x.(s := Apply(x.s, Return(t)))
  }

  /** The main thread has called fork_join_sort on `n` elements from `lo` on; nothing else uses the pool. */
  predicate Starts(x: System, lo: nat, n: nat) {
    Initial(x.s) && x.s.workers < |x.s.stacks| && lo + n <= |x.a| && x.calls == [Call(lo, n, 0, Ready)]
  }

  ghost predicate IsSortRun(xs: seq<System>, moves: seq<Move>, lo: nat, n: nat) {
    && |xs| == |moves| + 1
    && Starts(xs[0], lo, n)
    && forall i :: 0 <= i < |moves| ==> Can(xs[i], moves[i]) && xs[i + 1] == Do(xs[i], moves[i])
  }

  // ---------------------------------------------------------------------------
  // The tree of calls
  // ---------------------------------------------------------------------------

  predicate HasBoth(p: Phase) {
    p.Both? || p.Joining?
  }

  predicate HasGroup(p: Phase) {
    p.Made? || p.Half? || p.Both? || p.Joining?
  }

  predicate IsChild(p: Phase, c: nat) {
    (p.Half? && p.left == c) || (HasBoth(p) && (p.left == c || p.right == c))
  }

  predicate ChildOk(calls: seq<Call>, c: nat, k: nat, lo: nat, n: nat) {
    c < k < |calls| && calls[k].parent == c && calls[k].lo == lo && calls[k].n == n
  }

  predicate ChildrenOk(calls: seq<Call>, c: nat)
    requires c < |calls|
  {
    var k := calls[c];
    && (HasGroup(k.phase) ==> k.n > S.THRESHOLD)
    && (k.phase.Half? || HasBoth(k.phase) ==> ChildOk(calls, c, k.phase.left, k.lo, k.n / 2))
    && (HasBoth(k.phase) ==> k.phase.left != k.phase.right && ChildOk(calls, c, k.phase.right, k.lo + k.n / 2, k.n - k.n / 2))
    && (k.phase.Sorting? || k.phase.Merging? ==> |k.phase.start| == k.n)
  }

  predicate ParentOk(calls: seq<Call>, c: nat)
    requires c < |calls|
  {
    c > 0 ==> calls[c].parent < c && (calls[c].phase.Finished? || IsChild(calls[calls[c].parent].phase, c))
  }

  /** Every call that has not returned is a child of the call that dispatched it. */
  ghost predicate Tree(calls: seq<Call>) {
    calls != [] && forall c :: 0 <= c < |calls| ==> ChildrenOk(calls, c) && ParentOk(calls, c)
  }

  /** Changing the phase of one call keeps the tree, if no unfinished child is lost. */
  lemma TreeUpdate(calls: seq<Call>, c: nat, p: Phase)
    requires Tree(calls) && c < |calls| && ChildrenOk(SetPhase(calls, c, p), c)
    requires !calls[c].phase.Finished?
    requires forall k :: 0 <= k < |calls| && IsChild(calls[c].phase, k) ==> calls[k].phase.Finished? || IsChild(p, k)
    ensures Tree(SetPhase(calls, c, p))
  {
    var calls' := SetPhase(calls, c, p);
    forall k | 0 <= k < |calls|
      ensures ChildrenOk(calls', k) && ParentOk(calls', k)
    {
      assert ChildrenOk(calls, k) && ParentOk(calls, k);
    }
  }

  /** Dispatching a half keeps what the tree says of the call that dispatches and of the new one. */
  lemma ForkOk(calls: seq<Call>, c: nat)
    requires c < |calls| && (calls[c].phase.Made? || calls[c].phase.Half?) && ChildrenOk(calls, c) && ParentOk(calls, c)
    ensures var calls' := AfterFork(calls, c);
      ChildrenOk(calls', c) && ParentOk(calls', c) && ChildrenOk(calls', |calls|) && ParentOk(calls', |calls|)
  {
  }

  /** And of every other call. */
  lemma ForkOthersOk(calls: seq<Call>, c: nat, k: nat)
    requires c < |calls| && (calls[c].phase.Made? || calls[c].phase.Half?)
    requires k < |calls| && k != c && ChildrenOk(calls, k) && ParentOk(calls, k)
    ensures ChildrenOk(AfterFork(calls, c), k) && ParentOk(AfterFork(calls, c), k)
  {
    var calls' := AfterFork(calls, c);
    assert calls'[k] == calls[k];
  }

  /** Dispatching a half keeps the tree. */
  lemma TreeFork(calls: seq<Call>, c: nat)
    requires Tree(calls) && c < |calls| && (calls[c].phase.Made? || calls[c].phase.Half?)
    ensures Tree(AfterFork(calls, c))
  {
    hide ChildrenOk, ParentOk;
    var calls' := AfterFork(calls, c);
    assert |calls'| == |calls| + 1;
    hide AfterFork;
    ForkOk(calls, c);
    forall k | 0 <= k < |calls|
      ensures ChildrenOk(calls', k) && ParentOk(calls', k)
    {
      if k != c {
        ForkOthersOk(calls, c, k);
      }
    }
  }
}
