/**
 Bookkeeping of partial transfers over a buffer sequence: the generic
 consuming_buffers with its element cursor and its bounded list of prepared
 buffers, and the specialised forms for one buffer and for an array of two.
 */
module ConsumingBuffersModel {
  import opened Basics
  import opened Buffers

  /** The addresses that have not been consumed. */
  function Remaining(bs: seq<Buffer>, consumed: nat): seq<nat> {
    Flat(bs)[Min(consumed, |Flat(bs)|)..]
  }

  /** The addresses a transfer of at most `max` bytes may use. */
  function Window(bs: seq<Buffer>, consumed: nat, max: nat): seq<nat> {
    Remaining(bs, consumed)[..Min(max, |Remaining(bs, consumed)|)]
  }

  /** The first `n` of the addresses that follow position `from` of the flat view. */
  lemma WindowIs(bs: seq<Buffer>, consumed: nat, max: nat, n: nat)
    requires n == Min(max, |Flat(bs)| - Min(consumed, |Flat(bs)|))
    ensures Window(bs, consumed, max) == Flat(bs)[Min(consumed, |Flat(bs)|)..Min(consumed, |Flat(bs)|) + n]
  {
  }

  class ConsumingBuffers {
    const buffers: seq<Buffer>
    const maxBuffers: nat          // slots of a prepared_buffers list
    const totalSize: nat
    var totalConsumed: nat
    var nextElem: nat
    var nextElemOffset: nat

    /** The element cursor denotes the flat offset totalConsumed. */
    ghost predicate Valid()
      reads this
    {
      && totalSize == |Flat(buffers)|
      && Cursor(buffers, nextElem, nextElemOffset, Min(totalConsumed, |Flat(buffers)|))
    }

    constructor (buffers: seq<Buffer>, maxBuffers: nat)
      ensures Valid() && this.buffers == buffers && this.maxBuffers == maxBuffers && totalConsumed == 0
    {
      BeforeEnds(buffers);
      var size := BufferSize(buffers);
      this.buffers, this.maxBuffers, totalSize := buffers, maxBuffers, size;
      totalConsumed, nextElem, nextElemOffset := 0, 0, 0;
    }

    method Empty() returns (b: bool)
      requires Valid()
      ensures b <==> Remaining(buffers, totalConsumed) == []
    {
      b := totalConsumed >= totalSize;
    }

    /** Collects the next non-empty pieces, at most maxBuffers of them and max bytes in all. */
    method Prepare(max: nat) returns (result: seq<Buffer>)
      requires Valid()
      ensures |result| <= maxBuffers && forall i :: 0 <= i < |result| ==> result[i].size > 0
      ensures Flat(result) <= Window(buffers, totalConsumed, max)
      ensures |result| < maxBuffers || |buffers| <= maxBuffers ==> Flat(result) == Window(buffers, totalConsumed, max)
      ensures maxBuffers > 0 && Window(buffers, totalConsumed, max) != [] ==> result != []
    {
      result := [];
      ghost var start := Min(totalConsumed, |Flat(buffers)|);
      ghost var total: nat := start;
      var next, elemOffset, left: nat := nextElem, nextElemOffset, max;
      PrepareStarts(buffers, start, next, elemOffset, max);
      hide Flat, Before, Cursor, Window, Remaining, Collected, Preparing;
      while next != |buffers| && left > 0 && |result| < maxBuffers
        invariant next <= |buffers| && |result| <= maxBuffers && |result| <= next - nextElem
        invariant Preparing(buffers, result, start, total, next, elemOffset, left, max)
        decreases |buffers| - next
      {
        var piece := Limited(Offset(buffers[next], elemOffset), left);
        PrepareRound(buffers, result, start, total, next, elemOffset, left, max, piece);
        left := left - piece.size;
        elemOffset := 0;
        total := total + piece.size;
        if piece.size > 0 {
          result := result + [piece];
        }
        next := next + 1;
      }
      PrepareEnds(buffers, result, totalConsumed, total, next, elemOffset, left, max);
    }

    /** Moves the element cursor forward. */
    method Consume(size: nat)
      requires Valid()
      modifies this
      ensures Valid() && totalConsumed == old(totalConsumed) + size
    {
      ghost var target := Min(totalConsumed + size, |Flat(buffers)|);
      ghost var total: nat := Min(totalConsumed, |Flat(buffers)|);
      hide Flat, Before;
      totalConsumed := totalConsumed + size;
      var left: nat := size;
      CursorWithin(buffers, nextElem, nextElemOffset, total);
      while nextElem != |buffers| && left > 0
        invariant Cursor(buffers, nextElem, nextElemOffset, total) && total <= |Flat(buffers)|
        invariant totalConsumed == old(totalConsumed) + size
        invariant total + left == old(totalConsumed) + size || total == |Flat(buffers)| <= old(totalConsumed)
        decreases |buffers| - nextElem, left
      {
        var piece := Offset(buffers[nextElem], nextElemOffset);
        AtCursor(buffers, nextElem, nextElemOffset, total);
        if left < piece.size {
          CursorMove(buffers, nextElem, nextElemOffset, total, left);
          nextElemOffset := nextElemOffset + left;
          total := total + left;
          left := 0;
        } else {
          CursorMove(buffers, nextElem, nextElemOffset, total, piece.size);
          left := left - piece.size;
          nextElemOffset := 0;
          nextElem := nextElem + 1;
          total := total + piece.size;
        }
      }
      if nextElem == |buffers| {
        CursorEnd(buffers, total);
      }
    }
  }

  /** The pieces are the flat bytes `start..total`. */
  ghost predicate Collected(bs: seq<Buffer>, result: seq<Buffer>, start: nat, total: nat) {
    start <= total <= |Flat(bs)| && Flat(result) == Flat(bs)[start..total]
  }

  /** The state of prepare's loop: non-empty pieces up to the cursor, and what is left of the limit. */
  ghost predicate Preparing(bs: seq<Buffer>, result: seq<Buffer>, start: nat, total: nat, next: nat, offset: nat, left: nat, max: nat) {
    && (forall i :: 0 <= i < |result| ==> result[i].size > 0)
    && Collected(bs, result, start, total) && left + (total - start) == max
    && next <= |bs| && (left > 0 ==> Cursor(bs, next, offset, total))
  }

  lemma PrepareStarts(bs: seq<Buffer>, start: nat, next: nat, offset: nat, max: nat)
    requires Cursor(bs, next, offset, start)
    ensures Preparing(bs, [], start, start, next, offset, max, max)
  {
    assert Flat([]) == [];
    CursorWithin(bs, next, offset, start);
    hide Flat, Before;
  }

  lemma Prefix(flat: seq<nat>, start: nat, total: nat, end: nat)
    requires start <= total <= end <= |flat|
    ensures flat[start..total] <= flat[start..end] && |flat[start..total]| == total - start
  {
  }

  /** What has been collected is a prefix of the window, and all of it when the limit or the end is reached. */
  lemma CollectedWindow(bs: seq<Buffer>, result: seq<Buffer>, consumed: nat, max: nat, total: nat)
    requires var start := Min(consumed, |Flat(bs)|); Collected(bs, result, start, total) && total - start <= max
    ensures Flat(result) <= Window(bs, consumed, max)
    ensures total - Min(consumed, |Flat(bs)|) == max || total == |Flat(bs)| ==> Flat(result) == Window(bs, consumed, max)
    ensures |Flat(result)| == total - Min(consumed, |Flat(bs)|)
  {
    hide Flat, Window;
    var start := Min(consumed, |Flat(bs)|);
    var n := Min(max, |Flat(bs)| - start);
    WindowIs(bs, consumed, max, n);
    Prefix(Flat(bs), start, total, start + n);
  }

  /** One round of prepare: the next piece, if it has bytes, extends what is collected. */
  lemma PrepareRound(bs: seq<Buffer>, result: seq<Buffer>, start: nat, total: nat, next: nat, offset: nat, left: nat, max: nat, piece: Buffer)
    requires Preparing(bs, result, start, total, next, offset, left, max) && next < |bs| && left > 0
    requires piece == Limited(Offset(bs[next], offset), left)
    ensures piece.size <= left
    ensures Preparing(bs, if piece.size > 0 then result + [piece] else result, start, total + piece.size, next + 1, 0, left - piece.size, max)
  {
    AtCursor(bs, next, offset, total);
    CursorMove(bs, next, offset, total, piece.size);
    Append(bs, result, start, total, piece);
    hide Flat, Before;
  }

  /** What prepare has collected when its loop ends. */
  lemma PrepareEnds(bs: seq<Buffer>, result: seq<Buffer>, consumed: nat, total: nat, next: nat, offset: nat, left: nat, max: nat)
    requires var start := Min(consumed, |Flat(bs)|); Preparing(bs, result, start, total, next, offset, left, max)
    ensures forall i :: 0 <= i < |result| ==> result[i].size > 0
    ensures Flat(result) <= Window(bs, consumed, max)
    ensures left == 0 || (next == |bs| && offset == 0) ==> Flat(result) == Window(bs, consumed, max)
    ensures result == [] && (left == 0 || (next == |bs| && offset == 0)) ==> Window(bs, consumed, max) == []
  {
    if left > 0 && next == |bs| && offset == 0 {
      CursorEnd(bs, total);
    }
    assert Flat([]) == [];
    hide Flat, Window, Before, Cursor;
    CollectedWindow(bs, result, consumed, max, total);
  }

  /** Appending the piece under the cursor extends the prepared prefix. */
  lemma Append(bs: seq<Buffer>, result: seq<Buffer>, start: nat, total: nat, piece: Buffer)
    requires start <= total <= |Flat(bs)| && Flat(result) == Flat(bs)[start..total]
    requires Reads(Flat(bs), total, piece)
    ensures Flat(result + [piece]) == Flat(bs)[start..total + piece.size]
    ensures piece.size == 0 ==> Flat(bs)[start..total + piece.size] == Flat(bs)[start..total]
  {
    FlatConcat(result, [piece]);
    FlatSingle(piece);
    hide Flat;
    assert Addrs(piece) == Flat(bs)[total..total + piece.size];
  }

  // ---------------------------------------------------------------------------
  // Whole transfers
  // ---------------------------------------------------------------------------

  /** One call of the transport: how much was asked for and how much it moves at most. */
  datatype Call = Call(max: nat, moved: nat)

  predicate AllMove(calls: seq<Call>) {
    forall i :: 0 <= i < |calls| ==> calls[i].max > 0 && calls[i].moved > 0
  }

  /**
   Any alternation of prepare, a partial transfer from the front of the prepared
   buffers, and consume moves exactly the bytes of the sequence, in order. If no
   call asks for or moves nothing, as many calls as there are bytes are enough.
   */
  method Transfer(cb: ConsumingBuffers, calls: seq<Call>) returns (sent: seq<nat>, done: bool)
    requires cb.Valid() && cb.totalConsumed == 0
    modifies cb
    ensures cb.Valid() && cb.totalConsumed == |sent| <= |Flat(cb.buffers)|
    ensures sent == Flat(cb.buffers)[..|sent|]
    ensures done <==> sent == Flat(cb.buffers)
    ensures cb.maxBuffers > 0 && AllMove(calls) && |calls| >= |Flat(cb.buffers)| ==> done
  {
    hide Flat;
    sent := [];
    done := cb.Empty();
    for i := 0 to |calls|
      invariant cb.Valid() && cb.totalConsumed == |sent| <= |Flat(cb.buffers)|
      invariant sent == Flat(cb.buffers)[..|sent|]
      invariant done <==> |sent| == |Flat(cb.buffers)|
      invariant cb.maxBuffers > 0 && AllMove(calls) ==> done || |sent| >= i
    {
      if done {
        break;
      }
      var prepared := cb.Prepare(calls[i].max);
      var k := Min(calls[i].moved, |Flat(prepared)|);
      FlatOfPieces(prepared);
      TransferMore(cb.buffers, sent, calls[i].max, Flat(prepared), k);
      sent := sent + Flat(prepared)[..k];
      cb.Consume(k);
      done := cb.Empty();
    }
  }

  /** Non-empty pieces have bytes. */
  lemma FlatOfPieces(pieces: seq<Buffer>)
    requires forall i :: 0 <= i < |pieces| ==> pieces[i].size > 0
    ensures pieces != [] ==> |Flat(pieces)| > 0
  {
  }

  lemma TransferMore(bs: seq<Buffer>, sent: seq<nat>, max: nat, piece: seq<nat>, k: nat)
    requires |sent| <= |Flat(bs)| && sent == Flat(bs)[..|sent|] && piece <= Window(bs, |sent|, max) && k <= |piece|
    ensures |sent| + k <= |Flat(bs)| && sent + piece[..k] == Flat(bs)[..|sent| + k]
  {
    hide Flat;
  }

  // ---------------------------------------------------------------------------
  // The specialised forms
  // ---------------------------------------------------------------------------

  class ConsumingSingleBuffer {
    const buffer: Buffer
    var totalConsumed: nat

    constructor (buffer: Buffer)
      ensures this.buffer == buffer && totalConsumed == 0
    {
      this.buffer, totalConsumed := buffer, 0;
    }

    method Empty() returns (b: bool)
      ensures b <==> Remaining([buffer], totalConsumed) == []
    {
      FlatSingle(buffer);
      b := totalConsumed >= buffer.size;
    }

    method Prepare(max: nat) returns (result: Buffer)
      ensures Flat([result]) == Window([buffer], totalConsumed, max)
    {
      result := Limited(Offset(buffer, totalConsumed), max);
      FlatSingle(buffer);
      FlatSingle(result);
      OffsetLimitFlat(buffer, totalConsumed, max);
      OffsetLimitFlat(Offset(buffer, totalConsumed), 0, max);
    }

    method Consume(size: nat)
      modifies this
      ensures totalConsumed == old(totalConsumed) + size
    {
      totalConsumed := totalConsumed + size;
    }
  }

  lemma FlatPair(a: Buffer, b: Buffer)
    ensures Flat([a, b]) == Addrs(a) + Addrs(b)
  {
    FlatSingle(b);
    assert [a, b][1..] == [b];
  }

  class ConsumingBufferPair {
    const buffer0: Buffer
    const buffer1: Buffer
    var totalConsumed: nat

    constructor (buffer0: Buffer, buffer1: Buffer)
      ensures this.buffer0 == buffer0 && this.buffer1 == buffer1 && totalConsumed == 0
    {
      this.buffer0, this.buffer1, totalConsumed := buffer0, buffer1, 0;
    }

    method Empty() returns (b: bool)
      ensures b <==> Remaining([buffer0, buffer1], totalConsumed) == []
    {
      FlatPair(buffer0, buffer1);
      b := totalConsumed >= buffer0.size + buffer1.size;
    }

    method Prepare(max: nat) returns (result0: Buffer, result1: Buffer)
      ensures Flat([result0, result1]) == Window([buffer0, buffer1], totalConsumed, max)
    {
      result0 := Limited(Offset(buffer0, totalConsumed), max);
      var skip := if totalConsumed < buffer0.size then 0 else totalConsumed - buffer0.size;
      result1 := Limited(Offset(buffer1, skip), max - result0.size);
      FlatPair(buffer0, buffer1);
      FlatPair(result0, result1);
      PairWindow(buffer0, buffer1, totalConsumed, max, result0, result1);
    }

    method Consume(size: nat)
      modifies this
      ensures totalConsumed == old(totalConsumed) + size
    {
      totalConsumed := totalConsumed + size;
    }
  }

  lemma PairWindow(b0: Buffer, b1: Buffer, consumed: nat, max: nat, r0: Buffer, r1: Buffer)
    requires r0 == Limited(Offset(b0, consumed), max)
    requires r1 == Limited(Offset(b1, if consumed < b0.size then 0 else consumed - b0.size), max - r0.size)
    requires Flat([b0, b1]) == Addrs(b0) + Addrs(b1)
    ensures Addrs(r0) + Addrs(r1) == Window([b0, b1], consumed, max)
  {
    hide Flat;
    var w := Window([b0, b1], consumed, max);
    var start := Min(consumed, b0.size + b1.size);
    forall i | 0 <= i < |w|
      ensures i < r0.size + r1.size && w[i] == (Addrs(r0) + Addrs(r1))[i]
    {
      assert w[i] == (Addrs(b0) + Addrs(b1))[start + i];
    }
  }

  function Sum(history: seq<nat>): nat {
    if history == [] then 0 else Sum(history[..|history| - 1]) + history[|history| - 1]
  }

  /**
   For every consumption history and every max_size the specialised forms
   prepare the same bytes as the generic form, the next of the flat view, and
   agree on being empty.
   */
  method SingleRefinesGeneric(buffer: Buffer, slots: nat, history: seq<nat>, max: nat)
    returns (generic: seq<Buffer>, single: Buffer, genericEmpty: bool, singleEmpty: bool)
    requires slots > 0
    ensures Flat(generic) == Flat([single]) == Window([buffer], Sum(history), max)
    ensures genericEmpty == singleEmpty == (Remaining([buffer], Sum(history)) == [])
  {
    var g := new ConsumingBuffers([buffer], slots);
    var s := new ConsumingSingleBuffer(buffer);
    for i := 0 to |history|
      invariant g.Valid() && g.totalConsumed == s.totalConsumed == Sum(history[..i])
    {
      assert history[..i + 1][..i] == history[..i];
      g.Consume(history[i]);
      s.Consume(history[i]);
    }
    assert history[..|history|] == history;
    generic := g.Prepare(max);
    single := s.Prepare(max);
    genericEmpty := g.Empty();
    singleEmpty := s.Empty();
  }

  method PairRefinesGeneric(buffer0: Buffer, buffer1: Buffer, history: seq<nat>, max: nat)
    returns (generic: seq<Buffer>, result0: Buffer, result1: Buffer, genericEmpty: bool, pairEmpty: bool)
    ensures Flat(generic) == Flat([result0, result1]) == Window([buffer0, buffer1], Sum(history), max)
    ensures genericEmpty == pairEmpty == (Remaining([buffer0, buffer1], Sum(history)) == [])
  {
    var g := new ConsumingBuffers([buffer0, buffer1], 2);
    var p := new ConsumingBufferPair(buffer0, buffer1);
    for i := 0 to |history|
      invariant g.Valid() && g.totalConsumed == p.totalConsumed == Sum(history[..i])
    {
      assert history[..i + 1][..i] == history[..i];
      g.Consume(history[i]);
      p.Consume(history[i]);
    }
    assert history[..|history|] == history;
    generic := g.Prepare(max);
    result0, result1 := p.Prepare(max);
    genericEmpty := g.Empty();
    pairEmpty := p.Empty();
  }
}
