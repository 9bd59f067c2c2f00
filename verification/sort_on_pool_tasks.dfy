/**
 The task that a tree of calls denotes. A step of one call is a step of every task
 the call belongs to, and it does not show in any other.
 */
module SortOnPoolTasks {
  import opened SortOnPool
  import S = ForkJoinSort

  // ---------------------------------------------------------------------------
  // The task a tree denotes
  // ---------------------------------------------------------------------------

  function TaskOf(calls: seq<Call>, c: nat): S.Task
    requires c < |calls|
    decreases |calls| - c
  {
    var k := calls[c];
    var mid, hi, p := k.lo + k.n / 2, k.lo + k.n, k.phase;
    if p.Ready? then S.Pending(k.lo, hi)
    else if p.Sorting? then S.Sorting(k.lo, hi, p.start)
    else if p.Merging? then S.Merging(k.lo, mid, hi, p.start)
    else if p.Finished? then S.Done(k.lo, hi)
    else S.Forked(if !p.Made? && c < p.left < |calls| then TaskOf(calls, p.left) else S.Pending(k.lo, mid),
                  if HasBoth(p) && c < p.right < |calls| then TaskOf(calls, p.right) else S.Pending(mid, hi))
  }

  /** Call `c` is call `d` or lies below it. */
  predicate Under(calls: seq<Call>, c: nat, d: nat)
    decreases c
  {
    c == d || (0 < c < |calls| && calls[c].parent < c && Under(calls, calls[c].parent, d))
  }

  lemma {:induction false} UnderIsLater(calls: seq<Call>, c: nat, d: nat)
    requires Under(calls, c, d)
    ensures d <= c
    decreases c
  {
    if c != d {
      UnderIsLater(calls, calls[c].parent, d);
    }
  }

  /** What lies below a child lies below its parent. */
  lemma {:induction false} UnderParent(calls: seq<Call>, c: nat, d: nat)
    requires Under(calls, c, d) && 0 < d < |calls| && calls[d].parent < d
    ensures Under(calls, c, calls[d].parent)
    decreases c
  {
    if c != d {
      UnderParent(calls, calls[c].parent, d);
    }
  }

  /** No call lies below two children of one call. */
  lemma {:induction false} UnderOneChild(calls: seq<Call>, c: nat, d: nat, e: nat)
    requires Under(calls, c, d) && 0 < d < |calls| && 0 < e < |calls| && d != e
    requires calls[d].parent == calls[e].parent < d && calls[e].parent < e
    ensures !Under(calls, c, e)
    decreases c
  {
    if Under(calls, c, e) {
      if c == d {
        UnderIsLater(calls, calls[d].parent, e);
      } else if c == e {
        UnderIsLater(calls, calls[e].parent, d);
      } else {
        UnderOneChild(calls, calls[c].parent, d, e);
      }
    }
  }

  /** A change of call `c` does not show in tasks that it does not belong to. */
  lemma {:induction false} TaskSame(calls: seq<Call>, c: nat, p: Phase, d: nat)
    requires Tree(calls) && c < |calls| && d < |calls| && !Under(calls, c, d)
    ensures TaskOf(SetPhase(calls, c, p), d) == TaskOf(calls, d)
    decreases |calls| - d
  {
    assert ChildrenOk(calls, d);
    var q := calls[d].phase;
    if q.Half? || HasBoth(q) {
      if Under(calls, c, q.left) {
        UnderParent(calls, c, q.left);
      }
      TaskSame(calls, c, p, q.left);
    }
    if HasBoth(q) {
      if Under(calls, c, q.right) {
        UnderParent(calls, c, q.right);
      }
      TaskSame(calls, c, p, q.right);
    }
  }

  /** One step of the task, or none. */
  ghost predicate Moves(a: seq<real>, t: S.Task, a': seq<real>, t': S.Task) {
    (a' == a && t' == t) || S.Step(a, t, a', t')
  }

  /** A step of one call is a step of every task the call belongs to. */
  lemma {:induction false} Lift(calls: seq<Call>, c: nat, p: Phase, d: nat, a: seq<real>, a': seq<real>)
    requires Tree(calls) && c < |calls| && d < |calls| && Under(calls, c, d) && !calls[d].phase.Finished?
    requires Moves(a, TaskOf(calls, d), a', TaskOf(SetPhase(calls, c, p), d))
    ensures Moves(a, TaskOf(calls, 0), a', TaskOf(SetPhase(calls, c, p), 0))
    decreases d
  {
    if d > 0 {
      LiftOnce(calls, c, p, d, a, a');
      assert ParentOk(calls, d);
      UnderParent(calls, c, d);
      Lift(calls, c, p, calls[d].parent, a, a');
    }
  }

  lemma LiftOnce(calls: seq<Call>, c: nat, p: Phase, d: nat, a: seq<real>, a': seq<real>)
    requires Tree(calls) && c < |calls| && 0 < d < |calls| && Under(calls, c, d) && !calls[d].phase.Finished?
    requires Moves(a, TaskOf(calls, d), a', TaskOf(SetPhase(calls, c, p), d))
    ensures var e := calls[d].parent;
      e < d && Moves(a, TaskOf(calls, e), a', TaskOf(SetPhase(calls, c, p), e))
  {
    assert ParentOk(calls, d);
    var e, calls' := calls[d].parent, SetPhase(calls, c, p);
    assert ChildrenOk(calls, e);
    UnderIsLater(calls, c, d);
    assert calls'[e] == calls[e];
    var q := calls[e].phase;
    ForkedTask(calls, e);
    ForkedTask(calls', e);
    hide Tree, TaskOf, S.Step;
    if HasBoth(q) {
      var sibling := if d == q.left then q.right else q.left;
      UnderOneChild(calls, c, d, sibling);
      TaskSame(calls, c, p, sibling);
    }
    if d == q.left {
      LeftMoves(a, TaskOf(calls, e), a', TaskOf(calls', e));
    } else {
      RightMoves(a, TaskOf(calls, e), a', TaskOf(calls', e));
    }
  }

  /** The task of a call that has dispatched something. */
  lemma ForkedTask(calls: seq<Call>, c: nat)
    requires c < |calls| && (calls[c].phase.Half? || HasBoth(calls[c].phase)) && c < calls[c].phase.left < |calls|
    requires HasBoth(calls[c].phase) ==> c < calls[c].phase.right < |calls|
    ensures var k, t := calls[c], TaskOf(calls, c);
      && t.Forked? && t.left == TaskOf(calls, k.phase.left)
      && t.right == if HasBoth(k.phase) then TaskOf(calls, k.phase.right) else S.Pending(k.lo + k.n / 2, k.lo + k.n)
  {
  }

  lemma LeftMoves(a: seq<real>, t: S.Task, a': seq<real>, t': S.Task)
    requires t.Forked? && t'.Forked? && t'.right == t.right && Moves(a, t.left, a', t'.left)
    ensures Moves(a, t, a', t')
  {
  }

  lemma RightMoves(a: seq<real>, t: S.Task, a': seq<real>, t': S.Task)
    requires t.Forked? && t'.Forked? && t'.left == t.left && Moves(a, t.right, a', t'.right)
    ensures Moves(a, t, a', t')
  {
  }
}
