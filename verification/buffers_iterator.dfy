/**
 The random-access byte iterator over a buffer sequence. Whatever mix of moves
 led there, the iterator stands on the one cursor that belongs to its position,
 and dereferencing it yields the byte at that position of the flat view.
 */
module BuffersIterators {
  import opened Buffers

  /** A cursor stands on a byte, or past the last buffer. */
  ghost predicate OnByte(bs: seq<Buffer>, k: nat, offset: nat) {
    if k < |bs| then offset < bs[k].size else k == |bs| && offset == 0
  }

  lemma {:induction false} BeforeGrows(bs: seq<Buffer>, j: nat, k: nat)
    requires j < k <= |bs|
    ensures Before(bs, j) + bs[j].size <= Before(bs, k)
    decreases k
  {
    FlatAt(bs, k - 1);
    if j < k - 1 {
      BeforeGrows(bs, j, k - 1);
    }
  }

  /** Every flat position has only one cursor. */
  lemma CursorIsUnique(bs: seq<Buffer>, j: nat, p: nat, k: nat, q: nat)
    requires OnByte(bs, j, p) && OnByte(bs, k, q) && Before(bs, j) + p == Before(bs, k) + q
    ensures j == k && p == q
  {
    if j < k {
      BeforeGrows(bs, j, k);
    } else if k < j {
      BeforeGrows(bs, k, j);
    }
  }

  class BuffersIterator {
    const buffers: seq<Buffer>
    var current: nat                  // index of *current_; |buffers| stands for end_
    var currentBuffer: Buffer
    var currentBufferPosition: nat
    var position: nat

    /** The cursor belongs to the position; at the end currentBuffer may be stale. */
    ghost predicate Valid()
      reads this
    {
      && OnByte(buffers, current, currentBufferPosition)
      && position == Before(buffers, current) + currentBufferPosition
      && (current < |buffers| ==> currentBuffer == buffers[current])
    }

    constructor Begin(buffers: seq<Buffer>)
      ensures Valid() && this.buffers == buffers && position == 0
    {
      this.buffers := buffers;
      current, currentBuffer, currentBufferPosition, position := 0, Buffer(0, 0), 0, 0;
      new;
      BeforeEnds(buffers);
      SkipEmpty();
    }

    constructor End(buffers: seq<Buffer>)
      ensures Valid() && this.buffers == buffers && position == |Flat(buffers)|
    {
      this.buffers := buffers;
      current, currentBuffer, currentBufferPosition, position := 0, Buffer(0, 0), 0, 0;
      new;
      BeforeEnds(buffers);
      while current != |buffers|
        invariant current <= |buffers| && position == Before(buffers, current) && currentBufferPosition == 0
        decreases |buffers| - current
      {
        FlatAt(buffers, current);
        position := position + buffers[current].size;
        current := current + 1;
      }
    }

    constructor Copy(other: BuffersIterator)
      requires other.Valid()
      ensures Valid() && buffers == other.buffers && position == other.position
    {
      buffers, current, currentBuffer := other.buffers, other.current, other.currentBuffer;
      currentBufferPosition, position := other.currentBufferPosition, other.position;
    }

    /** Finds the next non-empty buffer, starting with the current one. */
    method SkipEmpty()
      requires current <= |buffers| && currentBufferPosition == 0 && position == Before(buffers, current)
      modifies this
      ensures Valid() && position == old(position)
    {
      while current != |buffers|
        invariant current <= |buffers| && currentBufferPosition == 0
        invariant position == old(position) == Before(buffers, current)
        decreases |buffers| - current
      {
        currentBuffer := buffers[current];
        if currentBuffer.size > 0 {
          return;
        }
        FlatAt(buffers, current);
        current := current + 1;
      }
    }

    /** The address of the byte the iterator stands on. */
    method Dereference() returns (address: nat)
      requires Valid() && position < |Flat(buffers)|
      ensures address == Flat(buffers)[position]
    {
      BeforeEnds(buffers);
      if current < |buffers| {
        FlatAt(buffers, current);
      }
      address := currentBuffer.data + currentBufferPosition;
    }

    method Equal(other: BuffersIterator) returns (b: bool)
      ensures b <==> position == other.position
    {
      b := position == other.position;
    }

    method DistanceTo(other: BuffersIterator) returns (d: int)
      ensures position + d == other.position
    {
      d := other.position - position;
    }

    method Increment()
      requires Valid() && position < |Flat(buffers)|
      modifies this
      ensures Valid() && position == old(position) + 1
    {
      BeforeEnds(buffers);
      assert current < |buffers|;
      FlatAt(buffers, current);
      position := position + 1;
      currentBufferPosition := currentBufferPosition + 1;
      if currentBufferPosition != currentBuffer.size {
        return;
      }
      current := current + 1;
      currentBufferPosition := 0;
      SkipEmpty();
    }

    method Decrement()
      requires Valid() && position > 0
      modifies this
      ensures Valid() && position == old(position) - 1
    {
      position := position - 1;
      if currentBufferPosition != 0 {
        currentBufferPosition := currentBufferPosition - 1;
        return;
      }
      StepBack();
      currentBufferPosition := currentBufferPosition - 1;
    }

    /** Moves to the end of the previous non-empty buffer, which exists when bytes lie before the current one. */
    method StepBack()
      requires current <= |buffers| && Before(buffers, current) > 0
      modifies this`current, this`currentBuffer, this`currentBufferPosition
      ensures current < old(current) && current < |buffers| && currentBuffer == buffers[current]
      ensures currentBufferPosition == currentBuffer.size > 0
      ensures Before(buffers, current) + currentBufferPosition == Before(buffers, old(current))
    {
      var iter: nat := current;
      while iter != 0
        invariant iter <= current == old(current) && Before(buffers, iter) == Before(buffers, current)
        decreases iter
      {
        iter := iter - 1;
        FlatAt(buffers, iter);
        var size := buffers[iter].size;
        if size > 0 {
          current := iter;
          currentBuffer := buffers[iter];
          currentBufferPosition := size;
          return;
        }
      }
      BeforeEnds(buffers);
      assert false;
    }

    method Advance(n: int)
      requires Valid() && 0 <= position + n <= |Flat(buffers)|
      modifies this
      ensures Valid() && position == old(position) + n
    {
      if n > 0 {
        AdvanceForward(n);
      } else if n < 0 {
        AdvanceBack(-n);
      }
    }

    method AdvanceForward(n: nat)
      requires Valid() && n > 0 && position + n <= |Flat(buffers)|
      modifies this
      ensures Valid() && position == old(position) + n
    {
      BeforeEnds(buffers);
      var left: nat := n;
      while true
        invariant current < |buffers| && currentBuffer == buffers[current]
        invariant currentBufferPosition <= currentBuffer.size
        invariant position == Before(buffers, current) + currentBufferPosition
        invariant position + left == old(position) + n
        decreases |buffers| - current
      {
        FlatAt(buffers, current);
        var balance := currentBuffer.size - currentBufferPosition;
        if balance > left {
          position := position + left;
          currentBufferPosition := currentBufferPosition + left;
          return;
        }
        left := left - balance;
        position := position + balance;
        current := current + 1;
        currentBufferPosition := 0;
        if current == |buffers| {
          assert left == 0;
          currentBuffer := Buffer(0, 0);
          return;
        }
        currentBuffer := buffers[current];
      }
    }

    method AdvanceBack(n: nat)
      requires Valid() && 0 < n <= position
      modifies this
      ensures Valid() && position == old(position) - n
    {
      var left: nat := n;
      while true
        invariant current <= |buffers| && left > 0
        invariant current < |buffers| ==> currentBuffer == buffers[current] && currentBufferPosition <= currentBuffer.size
        invariant current == |buffers| ==> currentBufferPosition == 0
        invariant position == Before(buffers, current) + currentBufferPosition
        invariant position - left == old(position) - n >= 0
        decreases current
      {
        if currentBufferPosition >= left {
          position := position - left;
          currentBufferPosition := currentBufferPosition - left;
          return;
        }
        left := left - currentBufferPosition;
        position := position - currentBufferPosition;
        StepBack();
      }
    }

    /** operator[]: dereference a copy that has been advanced. */
    method At(difference: int) returns (address: nat)
      requires Valid() && 0 <= position + difference < |Flat(buffers)|
      ensures address == Flat(buffers)[position + difference]
    {
      var tmp := new BuffersIterator.Copy(this);
      tmp.Advance(difference);
      address := tmp.Dereference();
    }
  }

  /** The position of a valid iterator lies in the flat view or at its end. */
  lemma PositionWithin(it: BuffersIterator)
    requires it.Valid()
    ensures it.position <= |Flat(it.buffers)|
  {
    CursorWithin(it.buffers, it.current, it.currentBufferPosition, it.position);
  }

  /** Comparing positions is sound: equal iterators agree in everything a caller can observe. */
  lemma EqualIteratorsAgree(a: BuffersIterator, b: BuffersIterator)
    requires a.Valid() && b.Valid() && a.buffers == b.buffers && a.position == b.position
    ensures a.current == b.current && a.currentBufferPosition == b.currentBufferPosition
    ensures a.position < |Flat(a.buffers)| ==> a.currentBuffer == b.currentBuffer
  {
    CursorIsUnique(a.buffers, a.current, a.currentBufferPosition, b.current, b.currentBufferPosition);
    BeforeEnds(a.buffers);
  }

  // ---------------------------------------------------------------------------
  // Any mix of moves
  // ---------------------------------------------------------------------------

  datatype Move = Inc | Dec | By(n: int)

  function Delta(m: Move): int {
    match m
    case Inc => 1
    case Dec => -1
    case By(n) => n
  }

  /** Where the moves lead; each must stay within `0..size`. */
  function Target(position: int, moves: seq<Move>): int
    decreases |moves|
  {
    if moves == [] then position else Target(position + Delta(moves[0]), moves[1..])
  }

  predicate InBounds(position: int, moves: seq<Move>, size: nat)
    decreases |moves|
  {
    0 <= position <= size && (moves != [] ==> InBounds(position + Delta(moves[0]), moves[1..], size))
  }

  /** After any in-bounds mix of moves the iterator is valid and stands where the arithmetic says. */
  method Replay(it: BuffersIterator, moves: seq<Move>)
    requires it.Valid() && InBounds(it.position, moves, |Flat(it.buffers)|)
    modifies it
    ensures it.Valid() && it.position == Target(old(it.position), moves)
  {
    var i := 0;
    assert moves[0..] == moves;
    while i < |moves|
      invariant i <= |moves| && it.Valid()
      invariant InBounds(it.position, moves[i..], |Flat(it.buffers)|)
      invariant Target(it.position, moves[i..]) == Target(old(it.position), moves)
    {
      assert moves[i..][0] == moves[i] && moves[i..][1..] == moves[i + 1..];
      assert 0 <= it.position + Delta(moves[i]) <= |Flat(it.buffers)|;
      match moves[i] {
        case Inc => it.Increment();
        case Dec => it.Decrement();
        case By(n) => it.Advance(n);
      }
      i := i + 1;
    }
  }

  /** `advance(n)` is `n` single steps. */
  method AdvanceIsSteps(a: BuffersIterator, b: BuffersIterator, n: nat)
    requires a != b && a.Valid() && b.Valid() && a.buffers == b.buffers && a.position == b.position
    requires a.position + n <= |Flat(a.buffers)|
    modifies a, b
    ensures a.Valid() && b.Valid() && a.position == b.position == old(a.position) + n
    ensures a.current == b.current && a.currentBufferPosition == b.currentBufferPosition
  {
    a.Advance(n);
    for i := 0 to n
      invariant b.Valid() && b.position == old(b.position) + i
      invariant a.Valid() && a.position == old(a.position) + n
    {
      b.Increment();
    }
    EqualIteratorsAgree(a, b);
  }

  /** `advance(-n)` is `n` single steps back. */
  method AdvanceIsStepsBack(a: BuffersIterator, b: BuffersIterator, n: nat)
    requires a != b && a.Valid() && b.Valid() && a.buffers == b.buffers && a.position == b.position
    requires n <= a.position
    modifies a, b
    ensures a.Valid() && b.Valid() && a.position == b.position == old(a.position) - n
    ensures a.current == b.current && a.currentBufferPosition == b.currentBufferPosition
  {
    PositionWithin(a);
    a.Advance(0 - n);
    for i := 0 to n
      invariant b.Valid() && b.position == old(b.position) - i
      invariant a.Valid() && a.position == old(a.position) - n
    {
      b.Decrement();
    }
    EqualIteratorsAgree(a, b);
  }

  /** `advance(-n)` undoes `advance(n)`, in either direction. */
  method AdvanceAndBack(it: BuffersIterator, n: int)
    requires it.Valid() && 0 <= it.position + n <= |Flat(it.buffers)|
    modifies it
    ensures it.Valid() && it.position == old(it.position)
    ensures it.current == old(it.current) && it.currentBufferPosition == old(it.currentBufferPosition)
  {
    ghost var k, p := it.current, it.currentBufferPosition;
    PositionWithin(it);
    it.Advance(n);
    it.Advance(-n);
    CursorIsUnique(it.buffers, it.current, it.currentBufferPosition, k, p);
  }
}
