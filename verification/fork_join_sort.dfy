/**
 fork_join_sort under every schedule. A call is a task; a range above the
 threshold forks two tasks and merges after both are done, a smaller one is
 sorted directly. While std::sort or std::inplace_merge works on a range it may
 write anything into that range, at any time, in between the writes of every
 other task: only the contracts of the two algorithms are assumed.
 */
module ForkJoinSort {

  const THRESHOLD := 32768

  datatype Task =
    | Pending(lo: nat, hi: nat)                                  // submitted or about to start
    | Sorting(lo: nat, hi: nat, start: seq<real>)                // inside std::sort, called on `start`
    | Forked(left: Task, right: Task)                            // blocked in the join guard
    | Merging(lo: nat, mid: nat, hi: nat, start: seq<real>)      // inside std::inplace_merge
    | Done(lo: nat, hi: nat)

  function Lo(t: Task): nat {
    if t.Forked? then Lo(t.left) else t.lo
  }

  function Hi(t: Task): nat {
    if t.Forked? then Hi(t.right) else t.hi
  }

  ghost predicate Sorted(s: seq<real>) {
    forall i, j :: 0 <= i < j < |s| ==> s[i] <= s[j]
  }

  /** The two arrays agree outside the range. */
  ghost predicate SameOutside(a: seq<real>, b: seq<real>, lo: nat, hi: nat) {
    |a| == |b| && forall k :: 0 <= k < |a| && !(lo <= k < hi) ==> a[k] == b[k]
  }

  ghost predicate SortedPermutation(s: seq<real>, of: seq<real>) {
    Sorted(s) && multiset(s) == multiset(of)
  }

  /** One step of any part of the task, on the shared array. */
  ghost predicate Step(a: seq<real>, t: Task, a': seq<real>, t': Task)
    decreases t
  {
    match t
    case Pending(lo, hi) =>
      && lo <= hi <= |a| && a' == a
      && if hi - lo > THRESHOLD
         then t' == Forked(Pending(lo, lo + (hi - lo) / 2), Pending(lo + (hi - lo) / 2, hi))
         else t' == Sorting(lo, hi, a[lo..hi])
    case Sorting(lo, hi, start) =>
      && lo <= hi <= |a| && SameOutside(a, a', lo, hi)
      && (t' == t || (t' == Done(lo, hi) && SortedPermutation(a'[lo..hi], start)))
    case Forked(l, r) =>
      || (t'.Forked? && t'.right == r && Step(a, l, a', t'.left))
      || (t'.Forked? && t'.left == l && Step(a, r, a', t'.right))
      || (l.Done? && r.Done? && l.lo <= r.hi <= |a| && a' == a && t' == Merging(l.lo, l.hi, r.hi, a[l.lo..r.hi]))
    case Merging(lo, mid, hi, start) =>
      && lo <= mid <= hi <= |a| && |start| == hi - lo && SameOutside(a, a', lo, hi)
      && (t' == t || (t' == Done(lo, hi) &&
           (Sorted(start[..mid - lo]) && Sorted(start[mid - lo..]) ==> SortedPermutation(a'[lo..hi], start))))
    case Done(_, _) => false
  }

  /** What holds of a task that was started on the array `a0`, whatever the other tasks do. */
  ghost predicate Good(a0: seq<real>, a: seq<real>, t: Task)
    decreases t
  {
    && |a| == |a0|
    && match t
       case Pending(lo, hi) => lo <= hi <= |a| && a[lo..hi] == a0[lo..hi]
       case Sorting(lo, hi, start) => lo <= hi <= |a| && start == a0[lo..hi]
       case Forked(l, r) => Lo(l) <= Hi(l) == Lo(r) <= Hi(r) <= |a| && Good(a0, a, l) && Good(a0, a, r)
       case Merging(lo, mid, hi, start) =>
         && lo <= mid <= hi <= |a| && |start| == hi - lo && multiset(start) == multiset(a0[lo..hi])
         && Sorted(start[..mid - lo]) && Sorted(start[mid - lo..])
       case Done(lo, hi) => lo <= hi <= |a| && SortedPermutation(a[lo..hi], a0[lo..hi])
  }

  lemma {:induction false} GoodRange(a0: seq<real>, a: seq<real>, t: Task)
    requires Good(a0, a, t)
    ensures Lo(t) <= Hi(t) <= |a| == |a0|
  {
  }

  /** A task reads and writes only its own range. */
  lemma {:induction false} StepStaysInRange(a0: seq<real>, a: seq<real>, t: Task, a': seq<real>, t': Task)
    requires Good(a0, a, t) && Step(a, t, a', t')
    ensures Lo(t') == Lo(t) && Hi(t') == Hi(t) && SameOutside(a, a', Lo(t), Hi(t))
    decreases t
  {
    if t.Forked? {
      GoodRange(a0, a, t.left);
      GoodRange(a0, a, t.right);
      if t'.Forked? && t'.right == t.right && Step(a, t.left, a', t'.left) {
        StepStaysInRange(a0, a, t.left, a', t'.left);
      } else if t'.Forked? && t'.left == t.left && Step(a, t.right, a', t'.right) {
        StepStaysInRange(a0, a, t.right, a', t'.right);
      }
    }
  }

  /** Writes outside its range do not disturb a task. */
  lemma {:induction false} GoodFrame(a0: seq<real>, a: seq<real>, a': seq<real>, t: Task)
    requires Good(a0, a, t) && |a'| == |a|
    requires forall k :: Lo(t) <= k < Hi(t) ==> k < |a| && a'[k] == a[k]
    ensures Good(a0, a', t)
    decreases t
  {
    match t
    case Forked(l, r) =>
      GoodRange(a0, a, l);
      GoodRange(a0, a, r);
      GoodFrame(a0, a, a', l);
      GoodFrame(a0, a, a', r);
    case Pending(lo, hi) => assert a'[lo..hi] == a[lo..hi];
    case Done(lo, hi) => assert a'[lo..hi] == a[lo..hi];
    case _ =>
  }

  /** When both halves are done the merge finds two sorted halves of a permutation. */
  lemma MergeStartsRight(a0: seq<real>, a: seq<real>, lo: nat, mid: nat, hi: nat)
    requires Good(a0, a, Done(lo, mid)) && Good(a0, a, Done(mid, hi))
    ensures Good(a0, a, Merging(lo, mid, hi, a[lo..hi]))
  {
    hide Sorted;
    SliceConcat(a, lo, mid, hi);
    SliceConcat(a0, lo, mid, hi);
  }

  lemma SliceConcat(s: seq<real>, lo: nat, mid: nat, hi: nat)
    requires lo <= mid <= hi <= |s|
    ensures s[lo..hi] == s[lo..mid] + s[mid..hi]
    ensures s[lo..hi][..mid - lo] == s[lo..mid] && s[lo..hi][mid - lo..] == s[mid..hi]
  {
  }

  lemma HalvesStartRight(a0: seq<real>, a: seq<real>, lo: nat, mid: nat, hi: nat)
    requires Good(a0, a, Pending(lo, hi)) && lo <= mid <= hi
    ensures Good(a0, a, Pending(lo, mid)) && Good(a0, a, Pending(mid, hi))
  {
    SliceConcat(a, lo, mid, hi);
    SliceConcat(a0, lo, mid, hi);
  }

  lemma LeafStepKeepsGood(a0: seq<real>, a: seq<real>, t: Task, a': seq<real>, t': Task)
    requires Good(a0, a, t) && Step(a, t, a', t') && !t.Forked?
    ensures Good(a0, a', t')
  {
    if t.Pending? && t.hi - t.lo > THRESHOLD {
      HalvesStartRight(a0, a, t.lo, t.lo + (t.hi - t.lo) / 2, t.hi);
    }
  }

  lemma {:induction false} StepKeepsGood(a0: seq<real>, a: seq<real>, t: Task, a': seq<real>, t': Task)
    requires Good(a0, a, t) && Step(a, t, a', t')
    ensures Good(a0, a', t')
    decreases t
  {
    if t.Forked? {
      var l, r := t.left, t.right;
      GoodRange(a0, a, l);
      GoodRange(a0, a, r);
      if t'.Forked? && t'.right == r && Step(a, l, a', t'.left) {
        StepStaysInRange(a0, a, l, a', t'.left);
        StepKeepsGood(a0, a, l, a', t'.left);
        GoodFrame(a0, a, a', r);
      } else if t'.Forked? && t'.left == l && Step(a, r, a', t'.right) {
        StepStaysInRange(a0, a, r, a', t'.right);
        StepKeepsGood(a0, a, r, a', t'.right);
        GoodFrame(a0, a, a', l);
      } else {
        MergeStartsRight(a0, a, l.lo, l.hi, r.hi);
      }
    } else {
      LeafStepKeepsGood(a0, a, t, a', t');
    }
  }

  // ---------------------------------------------------------------------------
  // Whole runs
  // ---------------------------------------------------------------------------

  /** A run of the call that sorts `[lo, hi)` of `arrays[0]`. */
  ghost predicate IsRun(arrays: seq<seq<real>>, tasks: seq<Task>, lo: nat, hi: nat) {
    && |arrays| == |tasks| > 0
    && lo <= hi <= |arrays[0]| && tasks[0] == Pending(lo, hi)
    && forall i :: 0 < i < |tasks| ==> Step(arrays[i - 1], tasks[i - 1], arrays[i], tasks[i])
  }

  lemma {:induction false} RunKeepsGood(arrays: seq<seq<real>>, tasks: seq<Task>, lo: nat, hi: nat, i: nat)
    requires IsRun(arrays, tasks, lo, hi) && i < |tasks|
    ensures Good(arrays[0], arrays[i], tasks[i]) && Lo(tasks[i]) == lo && Hi(tasks[i]) == hi
    ensures SameOutside(arrays[0], arrays[i], lo, hi)
  {
    if i > 0 {
      RunKeepsGood(arrays, tasks, lo, hi, i - 1);
      assert Step(arrays[i - 1], tasks[i - 1], arrays[i], tasks[i]);
      hide Good, Step, IsRun;
      StepKeepsGood(arrays[0], arrays[i - 1], tasks[i - 1], arrays[i], tasks[i]);
      StepStaysInRange(arrays[0], arrays[i - 1], tasks[i - 1], arrays[i], tasks[i]);
    }
  }

  /**
   Whatever the schedule: nothing outside the range ever changes, and when the
   call returns the range is a sorted permutation of what it was.
   */
  lemma SortsUnderEverySchedule(arrays: seq<seq<real>>, tasks: seq<Task>, lo: nat, hi: nat, i: nat)
    requires IsRun(arrays, tasks, lo, hi) && i < |tasks|
    ensures SameOutside(arrays[0], arrays[i], lo, hi)
    ensures tasks[i].Done? ==> SortedPermutation(arrays[i][lo..hi], arrays[0][lo..hi])
  {
    RunKeepsGood(arrays, tasks, lo, hi, i);
  }

  /** inplace_merge is only ever called on two sorted halves. */
  lemma MergePreconditionHolds(arrays: seq<seq<real>>, tasks: seq<Task>, lo: nat, hi: nat, i: nat)
    requires IsRun(arrays, tasks, lo, hi) && i < |tasks|
    ensures MergesAreSorted(tasks[i])
  {
    RunKeepsGood(arrays, tasks, lo, hi, i);
    GoodMerges(arrays[0], arrays[i], tasks[i]);
  }

  /** Every merge in progress was called on two sorted halves. */
  ghost predicate MergesAreSorted(t: Task) {
    match t
    case Forked(l, r) => MergesAreSorted(l) && MergesAreSorted(r)
    case Merging(lo, mid, hi, start) =>
      lo <= mid <= hi && |start| == hi - lo && Sorted(start[..mid - lo]) && Sorted(start[mid - lo..])
    case _ => true
  }

  lemma {:induction false} GoodMerges(a0: seq<real>, a: seq<real>, t: Task)
    requires Good(a0, a, t)
    ensures MergesAreSorted(t)
  {
    if t.Forked? {
      GoodMerges(a0, a, t.left);
      GoodMerges(a0, a, t.right);
    }
  }

  // ---------------------------------------------------------------------------
  // How the work is cut
  // ---------------------------------------------------------------------------

  /** Ranges of more than 32768 elements, and only those, are cut, into halves that differ by one element at most. */
  ghost predicate WellCut(t: Task) {
    match t
    case Pending(_, _) => true
    case Done(_, _) => true
    case Sorting(lo, hi, _) => hi - lo <= 32768
    case Merging(lo, mid, hi, _) => hi - lo > 32768 && mid - lo <= hi - mid <= mid - lo + 1
    case Forked(l, r) =>
      && Hi(r) - Lo(l) > 32768 && Hi(l) == Lo(r)
      && Hi(l) - Lo(l) <= Hi(r) - Lo(r) <= Hi(l) - Lo(l) + 1
      && WellCut(l) && WellCut(r)
  }

  lemma {:induction false} StepKeepsCut(a0: seq<real>, a: seq<real>, t: Task, a': seq<real>, t': Task)
    requires Good(a0, a, t) && Step(a, t, a', t') && WellCut(t)
    ensures WellCut(t')
    decreases t
  {
    if t.Forked? && t'.Forked? {
      GoodRange(a0, a, t.left);
      GoodRange(a0, a, t.right);
      if t'.right == t.right && Step(a, t.left, a', t'.left) {
        StepKeepsCut(a0, a, t.left, a', t'.left);
        StepStaysInRange(a0, a, t.left, a', t'.left);
      } else {
        StepKeepsCut(a0, a, t.right, a', t'.right);
        StepStaysInRange(a0, a, t.right, a', t'.right);
      }
    }
  }

  /** In every run exactly the ranges of more than 32768 elements are cut in half. */
  lemma {:induction false} RunKeepsCut(arrays: seq<seq<real>>, tasks: seq<Task>, lo: nat, hi: nat, i: nat)
    requires IsRun(arrays, tasks, lo, hi) && i < |tasks|
    ensures WellCut(tasks[i])
  {
    if i > 0 {
      RunKeepsCut(arrays, tasks, lo, hi, i - 1);
      RunKeepsGood(arrays, tasks, lo, hi, i - 1);
      assert Step(arrays[i - 1], tasks[i - 1], arrays[i], tasks[i]);
      hide Good, Step, IsRun, WellCut;
      StepKeepsCut(arrays[0], arrays[i - 1], tasks[i - 1], arrays[i], tasks[i]);
    }
  }

  // ---------------------------------------------------------------------------
  // The sort ends
  // ---------------------------------------------------------------------------

  /** Control steps left; writes inside a sort or merge do not change it. */
  function Rank(t: Task): nat {
    match t
    case Pending(lo, hi) => if lo < hi then 8 * (hi - lo) - 4 else 3
    case Sorting(_, _, _) => 1
    case Forked(l, r) => Rank(l) + Rank(r) + 2
    case Merging(_, _, _, _) => 1
    case Done(_, _) => 0
  }

  /** Every step is a write of a running sort or merge, or brings the end closer. */
  lemma {:induction false} StepDescends(a: seq<real>, t: Task, a': seq<real>, t': Task)
    requires Step(a, t, a', t')
    ensures t' == t || Rank(t') < Rank(t)
    decreases t
  {
    if t.Forked? && t'.Forked? {
      if t'.right == t.right && Step(a, t.left, a', t'.left) {
        StepDescends(a, t.left, a', t'.left);
      } else {
        StepDescends(a, t.right, a', t'.right);
      }
    }
  }

  function Insert(x: real, s: seq<real>): (r: seq<real>)
    ensures multiset(r) == multiset(s) + multiset{x}
  {
    if s == [] || x <= s[0] then [x] + s
    else
      assert s == [s[0]] + s[1..];
      [s[0]] + Insert(x, s[1..])
  }

  lemma {:induction false} InsertSorts(x: real, s: seq<real>)
    requires Sorted(s)
    ensures Sorted(Insert(x, s)) && Insert(x, s) != [] && Insert(x, s)[0] == (if s == [] || x <= s[0] then x else s[0])
  {
    if s != [] && x > s[0] {
      InsertSorts(x, s[1..]);
      SortedPrepend(s[0], Insert(x, s[1..]));
    } else {
      SortedPrepend(x, s);
    }
  }

  lemma SortedPrepend(x: real, s: seq<real>)
    requires Sorted(s) && (s == [] || x <= s[0])
    ensures Sorted([x] + s)
  {
  }

  function SortOf(s: seq<real>): (r: seq<real>)
    ensures SortedPermutation(r, s)
  {
    if s == [] then [] else
      assert s == [s[0]] + s[1..];
      InsertSorts(s[0], SortOf(s[1..]));
      Insert(s[0], SortOf(s[1..]))
  }

  /** Overwrites the range with its sorted contents. */
  function Finish(a: seq<real>, lo: nat, hi: nat, start: seq<real>): (a': seq<real>)
    requires lo <= hi <= |a| && |start| == hi - lo
    ensures SameOutside(a, a', lo, hi) && SortedPermutation(a'[lo..hi], start)
  {
    var s := SortOf(start);
    assert |s| == |start| by { assert |multiset(s)| == |multiset(start)|; }
    var a' := a[..lo] + s + a[hi..];
    assert a'[lo..hi] == s;
    a'
  }

  /** A call that has not returned can always take a step towards its end. */
  lemma {:induction false} NeverStuck(a0: seq<real>, a: seq<real>, t: Task) returns (a': seq<real>, t': Task)
    requires Good(a0, a, t) && !t.Done?
    ensures Step(a, t, a', t') && Rank(t') < Rank(t)
    decreases t
  {
    match t
    case Pending(lo, hi) =>
      a' := a;
      t' := if hi - lo > THRESHOLD
            then Forked(Pending(lo, lo + (hi - lo) / 2), Pending(lo + (hi - lo) / 2, hi))
            else Sorting(lo, hi, a[lo..hi]);
    case Sorting(lo, hi, start) =>
      a', t' := Finish(a, lo, hi, start), Done(lo, hi);
    case Forked(l, r) =>
      if !l.Done? {
        var l';
        a', l' := NeverStuck(a0, a, l);
        t' := Forked(l', r);
      } else if !r.Done? {
        var r';
        a', r' := NeverStuck(a0, a, r);
        t' := Forked(l, r');
      } else {
        a', t' := a, Merging(l.lo, l.hi, r.hi, a[l.lo..r.hi]);
      }
    case Merging(lo, mid, hi, start) =>
      a', t' := Finish(a, lo, hi, start), Done(lo, hi);
  }
}
