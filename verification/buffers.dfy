/**
 Scatter/gather buffers. A buffer is a start address and a size; a buffer
 sequence denotes the addresses of its bytes, one after the other. Everything
 the library does with buffer sequences is specified through that flat view.
 */
module Buffers {
  import opened Basics

  /** mutable_buffer and const_buffer. */
  datatype Buffer = Buffer(data: nat, size: nat)

  /** operator+: move the start of the buffer, at most to its end. */
  function Offset(b: Buffer, n: nat): Buffer {
    var offset := if n < b.size then n else b.size;
    Buffer(b.data + offset, b.size - offset)
  }

  /** asio::buffer(b, max_size_in_bytes). */
  function Limited(b: Buffer, max: nat): Buffer {
    Buffer(b.data, if b.size < max then b.size else max)
  }

  /** The addresses of the bytes of one buffer. */
  function Addrs(b: Buffer): seq<nat> {
    seq(b.size, i => b.data + i)
  }

  /** The addresses of the bytes of a buffer sequence. */
  function Flat(bs: seq<Buffer>): seq<nat> {
    if bs == [] then [] else Addrs(bs[0]) + Flat(bs[1..])
  }

  /** The bytes found at the addresses. */
  function Bytes(m: seq<byte>, addrs: seq<nat>): seq<byte>
    requires forall i :: 0 <= i < |addrs| ==> addrs[i] < |m|
  {
    seq(|addrs|, i requires 0 <= i < |addrs| => m[addrs[i]])
  }

  predicate InMemory(bs: seq<Buffer>, size: nat) {
    forall i :: 0 <= i < |bs| ==> bs[i].data + bs[i].size <= size
  }

  /** The flat position at which buffer `k` starts. */
  function Before(bs: seq<Buffer>, k: nat): nat
    requires k <= |bs|
  {
    |Flat(bs[..k])|
  }

  // ---------------------------------------------------------------------------
  // The flat view
  // ---------------------------------------------------------------------------

  /** Offsets and limits cut the flat view at the front and at the back. */
  lemma OffsetLimitFlat(b: Buffer, n: nat, max: nat)
    ensures Addrs(Offset(b, n)) == Addrs(b)[Min(n, b.size)..]
    ensures Addrs(Limited(b, max)) == Addrs(b)[..Min(max, b.size)]
  {
  }

  lemma {:induction false} FlatConcat(a: seq<Buffer>, b: seq<Buffer>)
    ensures Flat(a + b) == Flat(a) + Flat(b)
  {
    assert Flat([]) == [];
    hide Addrs, Flat;
    if a == [] {
      assert a + b == b;
    } else {
      FlatCons(a);
      FlatCons(a + b);
      FlatConcat(a[1..], b);
      assert (a + b)[0] == a[0] && (a + b)[1..] == a[1..] + b;
      Associative(Addrs(a[0]), Flat(a[1..]), Flat(b));
    }
  }

  lemma Associative(x: seq<nat>, y: seq<nat>, z: seq<nat>)
    ensures x + (y + z) == (x + y) + z
  {
  }

  lemma FlatCons(bs: seq<Buffer>)
    requires bs != []
    ensures Flat(bs) == Addrs(bs[0]) + Flat(bs[1..])
  {
  }

  lemma FlatSingle(b: Buffer)
    ensures Flat([b]) == Addrs(b)
  {
    assert [b][1..] == [];
  }

  /** From position `total` on, the addresses are those of the buffer. */
  ghost predicate Reads(addrs: seq<nat>, total: nat, b: Buffer) {
    total + b.size <= |addrs| && forall p :: total <= p < total + b.size ==> addrs[p] == b.data + (p - total)
  }

  /** Buffer `k` occupies the flat positions from `Before(bs, k)` on. */
  lemma FlatAt(bs: seq<Buffer>, k: nat)
    requires k < |bs|
    ensures Before(bs, k + 1) == Before(bs, k) + bs[k].size <= |Flat(bs)|
    ensures Flat(bs)[Before(bs, k)..Before(bs, k + 1)] == Addrs(bs[k])
    ensures Reads(Flat(bs), Before(bs, k), bs[k])
  {
    FlatSplit(bs, k);
    var x, z := Flat(bs[..k]), Flat(bs[k + 1..]);
    hide Flat;
    assert Flat(bs) == x + Addrs(bs[k]) + z;
  }

  lemma FlatLast(bs: seq<Buffer>, k: nat)
    requires k < |bs|
    ensures Flat(bs[..k + 1]) == Flat(bs[..k]) + Addrs(bs[k])
  {
    hide Addrs, Flat;
    FlatSingle(bs[k]);
    FlatConcat(bs[..k], [bs[k]]);
    assert bs[..k + 1] == bs[..k] + [bs[k]];
  }

  lemma FlatSplit(bs: seq<Buffer>, k: nat)
    requires k < |bs|
    ensures Flat(bs) == Flat(bs[..k]) + Addrs(bs[k]) + Flat(bs[k + 1..])
    ensures Flat(bs[..k + 1]) == Flat(bs[..k]) + Addrs(bs[k])
  {
    hide Addrs, Flat;
    FlatLast(bs, k);
    var front, back := bs[..k + 1], bs[k + 1..];
    assert bs == front + back;
    FlatConcat(front, back);
  }

  lemma BeforeEnds(bs: seq<Buffer>)
    ensures Before(bs, 0) == 0 && Before(bs, |bs|) == |Flat(bs)|
  {
    assert bs[..|bs|] == bs;
  }

  lemma {:induction false} FlatInMemory(bs: seq<Buffer>, size: nat)
    requires InMemory(bs, size)
    ensures forall i :: 0 <= i < |Flat(bs)| ==> Flat(bs)[i] < size
  {
    if bs != [] {
      FlatInMemory(bs[1..], size);
    }
  }

  /** buffer_size adds up the sizes. */
  method BufferSize(bs: seq<Buffer>) returns (total: nat)
    ensures total == |Flat(bs)|
  {
    total := 0;
    for i := 0 to |bs|
      invariant total == Before(bs, i)
    {
      FlatAt(bs, i);
      total := total + bs[i].size;
    }
    BeforeEnds(bs);
  }

  // ---------------------------------------------------------------------------
  // buffer_copy
  // ---------------------------------------------------------------------------

  /** No two target bytes share an address, and no target byte is a source byte. */
  ghost predicate Apart(target: seq<nat>, source: seq<nat>) {
    && (forall i, j :: 0 <= i < j < |target| ==> target[i] != target[j])
    && (forall i, j :: 0 <= i < |target| && 0 <= j < |source| ==> target[i] != source[j])
  }

  ghost predicate CopyArgs(size: nat, target: seq<Buffer>, source: seq<Buffer>) {
    InMemory(target, size) && InMemory(source, size) && Apart(Flat(target), Flat(source))
  }

  /** Address `a` occurs at one of the positions `lo..hi`. */
  ghost predicate Among(addrs: seq<nat>, lo: nat, hi: nat, a: nat) {
    exists i :: lo <= i < hi && i < |addrs| && addrs[i] == a
  }

  /** The first `n` flat source bytes have been copied to the flat target; nothing else changed. */
  ghost predicate Copied(m0: seq<byte>, m: seq<byte>, target: seq<nat>, source: seq<nat>, n: nat) {
    && |m| == |m0| && n <= |target| && n <= |source|
    && (forall i :: 0 <= i < |target| ==> target[i] < |m|)
    && (forall i :: 0 <= i < |source| ==> source[i] < |m|)
    && (forall i :: 0 <= i < n ==> m[target[i]] == m0[source[i]])
    && (forall a :: 0 <= a < |m| && !Among(target, 0, n, a) ==> m[a] == m0[a])
  }

  /** What buffer_copy promises, said of the bytes: target becomes source[..n] + target[n..]. */
  lemma CopiedBytes(m0: seq<byte>, m: seq<byte>, target: seq<nat>, source: seq<nat>, n: nat)
    requires Copied(m0, m, target, source, n) && Apart(target, source)
    ensures Bytes(m, target) == Bytes(m0, source)[..n] + Bytes(m0, target)[n..]
    ensures Bytes(m, source) == Bytes(m0, source)
  {
  }

  /** The effect of memcpy on `n` bytes. */
  ghost predicate Memcpy(m: seq<byte>, m': seq<byte>, to: nat, from: nat, n: nat) {
    && |m'| == |m| && to + n <= |m| && from + n <= |m|
    && (forall a :: to <= a < to + n ==> m'[a] == m[from + (a - to)])
    && (forall a :: 0 <= a < |m| && !(to <= a < to + n) ==> m'[a] == m[a])
  }

  /** The addresses of a buffer are among those it is read at. */
  lemma WritesWithin(addrs: seq<nat>, total: nat, end: nat, b: Buffer)
    requires Reads(addrs, total, b) && end == total + b.size
    ensures forall a :: b.data <= a < b.data + b.size ==> Among(addrs, total, end, a)
  {
    forall a | b.data <= a < b.data + b.size
      ensures Among(addrs, total, end, a)
    {
      assert addrs[total + (a - b.data)] == a;
    }
  }

  /** Another target address than those written keeps its byte. */
  lemma CopyKeepsRest(m: seq<byte>, m': seq<byte>, target: seq<nat>, total: nat, to: nat, from: nat, n: nat, a: nat)
    requires Memcpy(m, m', to, from, n) && Reads(target, total, Buffer(to, n))
    requires a < |m| && !Among(target, total, total + n, a)
    ensures m'[a] == m[a]
  {
    WritesWithin(target, total, total + n, Buffer(to, n));
  }

  /** The bytes written come from the source, which is still as it was. */
  lemma CopyBrings(m0: seq<byte>, m: seq<byte>, m': seq<byte>, target: seq<nat>, source: seq<nat>,
                   total: nat, to: nat, from: nat, n: nat, i: nat)
    requires Copied(m0, m, target, source, total) && Apart(target, source) && Memcpy(m, m', to, from, n)
    requires Reads(target, total, Buffer(to, n)) && Reads(source, total, Buffer(from, n)) && total <= i < total + n
    ensures m'[target[i]] == m0[source[i]]
  {
    assert !Among(target, 0, total, source[i]);
    var d := i - total;
    assert target[total + d] == to + d && source[total + d] == from + d;
  }

  /** A memcpy between the two cursors extends what has been copied. */
  lemma CopyMore(m0: seq<byte>, m: seq<byte>, m': seq<byte>, target: seq<nat>, source: seq<nat>,
                 total: nat, to: nat, from: nat, n: nat)
    requires Copied(m0, m, target, source, total) && Apart(target, source) && Memcpy(m, m', to, from, n)
    requires Reads(target, total, Buffer(to, n)) && Reads(source, total, Buffer(from, n))
    ensures Copied(m0, m', target, source, total + n)
  {
    assert |m'| == |m|;
    hide Memcpy;
    forall i | 0 <= i < total + n
      ensures m'[target[i]] == m0[source[i]]
    {
      if i < total {
        assert !Among(target, total, total + n, target[i]);
        CopyKeepsRest(m, m', target, total, to, from, n, target[i]);
      } else {
        CopyBrings(m0, m, m', target, source, total, to, from, n, i);
      }
    }
    forall a | 0 <= a < |m| && !Among(target, 0, total + n, a)
      ensures m'[a] == m0[a]
    {
      assert !Among(target, total, total + n, a) && !Among(target, 0, total, a);
      CopyKeepsRest(m, m', target, total, to, from, n, a);
    }
  }

  /** buffer_copy_1: one memcpy of as many bytes as both buffers have. */
  method BufferCopy1(mem: array<byte>, target: Buffer, source: Buffer) returns (n: nat)
    requires InMemory([target], mem.Length) && InMemory([source], mem.Length)
    requires target.data + target.size <= source.data || source.data + source.size <= target.data
             || target.size == 0 || source.size == 0
    modifies mem
    ensures n == Min(target.size, source.size)
    ensures Memcpy(old(mem[..]), mem[..], target.data, source.data, n)
  {
    assert [target][0] == target && [source][0] == source;
    n := if target.size < source.size then target.size else source.size;
    for i := 0 to n
      invariant forall a :: target.data <= a < target.data + i ==> mem[a] == old(mem[source.data + (a - target.data)])
      invariant forall a :: 0 <= a < mem.Length && !(target.data <= a < target.data + i) ==> mem[a] == old(mem[a])
    {
      mem[target.data + i] := mem[source.data + i];
    }
  }

  /** Two pieces of a target and a source that are apart satisfy what memcpy demands. */
  lemma PiecesApart(target: seq<nat>, source: seq<nat>, total: nat, t: Buffer, s: Buffer)
    requires Apart(target, source) && Reads(target, total, t) && Reads(source, total, s)
    ensures t.data + t.size <= s.data || s.data + s.size <= t.data || t.size == 0 || s.size == 0
  {
    var a := if t.data < s.data then s.data else t.data;
    var p, q := total + (a - t.data), total + (a - s.data);
    assert p < total + t.size ==> target[p] == a;
    assert q < total + s.size ==> source[q] == a;
  }

  /** The two cursors stand at the same flat position. */
  ghost predicate Cursor(bs: seq<Buffer>, k: nat, offset: nat, total: nat) {
    k <= |bs| && total == Before(bs, k) + offset && (if k < |bs| then offset <= bs[k].size else offset == 0)
  }

  /** What remains of the buffer under the cursor. */
  lemma AtCursor(bs: seq<Buffer>, k: nat, offset: nat, total: nat)
    requires Cursor(bs, k, offset, total) && k < |bs|
    ensures var b := Offset(bs[k], offset);
      && b.size == bs[k].size - offset && total + b.size == Before(bs, k + 1) <= |Flat(bs)|
      && Reads(Flat(bs), total, b)
  {
    FlatAt(bs, k);
  }

  lemma CursorWithin(bs: seq<Buffer>, k: nat, offset: nat, total: nat)
    requires Cursor(bs, k, offset, total)
    ensures total <= |Flat(bs)|
  {
    if k < |bs| {
      FlatAt(bs, k);
    } else {
      BeforeEnds(bs);
    }
  }

  lemma CursorEnd(bs: seq<Buffer>, total: nat)
    requires Cursor(bs, |bs|, 0, total)
    ensures total == |Flat(bs)|
  {
    BeforeEnds(bs);
  }

  /** The cursor after `n` of the bytes that remain in its buffer have been used. */
  lemma CursorMove(bs: seq<Buffer>, k: nat, offset: nat, total: nat, n: nat)
    requires Cursor(bs, k, offset, total) && k < |bs| && n <= bs[k].size - offset
    ensures if n == bs[k].size - offset then Cursor(bs, k + 1, 0, total + n) else Cursor(bs, k, offset + n, total + n)
  {
    FlatAt(bs, k);
  }

  lemma NothingCopied(m: seq<byte>, target: seq<Buffer>, source: seq<Buffer>)
    requires CopyArgs(|m|, target, source)
    ensures Copied(m, m, Flat(target), Flat(source), 0)
    ensures Cursor(target, 0, 0, 0) && Cursor(source, 0, 0, 0)
  {
    FlatInMemory(target, |m|);
    FlatInMemory(source, |m|);
    BeforeEnds(target);
    BeforeEnds(source);
  }

  /** One round of a copy loop: copy between the two cursors, at most `max` bytes. */
  method CopyRound(mem: array<byte>, ghost m0: seq<byte>, target: seq<Buffer>, source: seq<Buffer>,
                   ti: nat, to: nat, si: nat, so: nat, max: nat, ghost total: nat) returns (n: nat)
    requires CopyArgs(mem.Length, target, source) && Copied(m0, mem[..], Flat(target), Flat(source), total)
    requires Cursor(target, ti, to, total) && ti < |target| && Cursor(source, si, so, total) && si < |source|
    modifies mem
    ensures n == Min(target[ti].size - to, Min(source[si].size - so, max))
    ensures Copied(m0, mem[..], Flat(target), Flat(source), total + n)
  {
    var t, s := Offset(target[ti], to), Limited(Offset(source[si], so), max);
    AtCursor(target, ti, to, total);
    AtCursor(source, si, so, total);
    PiecesApart(Flat(target), Flat(source), total, t, s);
    ghost var m := mem[..];
    n := BufferCopy1(mem, t, s);
    CopyMore(m0, m, mem[..], Flat(target), Flat(source), total, t.data, s.data, n);
  }

  /** buffer_copy between single buffers, with a limit. */
  method BufferCopyOneOne(mem: array<byte>, target: Buffer, source: Buffer, max: nat) returns (n: nat)
    requires CopyArgs(mem.Length, [target], [source])
    modifies mem
    ensures n == Min(Min(|Flat([target])|, |Flat([source])|), max)
    ensures Copied(old(mem[..]), mem[..], Flat([target]), Flat([source]), n)
  {
    FlatSingle(target);
    FlatSingle(source);
    NothingCopied(mem[..], [target], [source]);
    n := CopyRound(mem, mem[..], [target], [source], 0, 0, 0, 0, max, 0);
  }

  /** buffer_copy from many buffers into one. */
  method BufferCopyOneMany(mem: array<byte>, target: Buffer, source: seq<Buffer>, max: nat) returns (total: nat)
    requires CopyArgs(mem.Length, [target], source)
    modifies mem
    ensures total == Min(Min(|Flat([target])|, |Flat(source)|), max)
    ensures Copied(old(mem[..]), mem[..], Flat([target]), Flat(source), total)
  {
    FlatSingle(target);
    hide Copied, CopyArgs;
    NothingCopied(mem[..], [target], source);
    total := 0;
    var si := 0;
    var limit := Limited(target, max).size;
    while total < limit && si != |source|
      invariant si <= |source| && total <= limit
      invariant Copied(old(mem[..]), mem[..], Flat([target]), Flat(source), total)
      invariant total < limit ==> Cursor(source, si, 0, total)
      invariant total <= |Flat(source)|
      decreases |source| - si
    {
      var n := CopyRound(mem, old(mem[..]), [target], source, 0, total, si, 0, limit - total, total);
      CursorMove(source, si, 0, total, n);
      FlatAt(source, si);
      total := total + n;
      si := si + 1;
    }
    if total < limit {
      CursorEnd(source, total);
    }
  }

  /** buffer_copy from one buffer into many. */
  method BufferCopyManyOne(mem: array<byte>, target: seq<Buffer>, source: Buffer, max: nat) returns (total: nat)
    requires CopyArgs(mem.Length, target, [source])
    modifies mem
    ensures total == Min(Min(|Flat(target)|, |Flat([source])|), max)
    ensures Copied(old(mem[..]), mem[..], Flat(target), Flat([source]), total)
  {
    FlatSingle(source);
    hide Copied, CopyArgs;
    NothingCopied(mem[..], target, [source]);
    total := 0;
    var ti := 0;
    var limit := Limited(source, max).size;
    while total < limit && ti != |target|
      invariant ti <= |target| && total <= limit
      invariant Copied(old(mem[..]), mem[..], Flat(target), Flat([source]), total)
      invariant total < limit ==> Cursor(target, ti, 0, total)
      invariant total <= |Flat(target)|
      decreases |target| - ti
    {
      var n := CopyRound(mem, old(mem[..]), target, [source], ti, 0, 0, total, limit - total, total);
      CursorMove(target, ti, 0, total, n);
      FlatAt(target, ti);
      total := total + n;
      ti := ti + 1;
    }
    if total < limit {
      CursorEnd(target, total);
    }
  }

  /** buffer_copy between many buffers, without a limit. */
  method BufferCopyManyMany(mem: array<byte>, target: seq<Buffer>, source: seq<Buffer>) returns (total: nat)
    requires CopyArgs(mem.Length, target, source)
    modifies mem
    ensures total == Min(|Flat(target)|, |Flat(source)|)
    ensures Copied(old(mem[..]), mem[..], Flat(target), Flat(source), total)
  {
    hide Copied, CopyArgs;
    NothingCopied(mem[..], target, source);
    total := 0;
    var ti, to, si, so := 0, 0, 0, 0;
    while ti != |target| && si != |source|
      invariant Cursor(target, ti, to, total) && Cursor(source, si, so, total)
      invariant Copied(old(mem[..]), mem[..], Flat(target), Flat(source), total)
      decreases |target| - ti + |source| - si
    {
      var tSize, sSize := Offset(target[ti], to).size, Offset(source[si], so).size;
      var n := CopyRound(mem, old(mem[..]), target, source, ti, to, si, so, sSize, total);
      CursorMove(target, ti, to, total, n);
      CursorMove(source, si, so, total, n);
      total := total + n;
      if n == tSize { ti, to := ti + 1, 0; } else { to := to + n; }
      if n == sSize { si, so := si + 1, 0; } else { so := so + n; }
    }
    CursorWithin(target, ti, to, total);
    CursorWithin(source, si, so, total);
    if ti == |target| {
      CursorEnd(target, total);
    } else {
      CursorEnd(source, total);
    }
  }

  /** buffer_copy between many buffers, with a limit. */
  method BufferCopyManyManyLimited(mem: array<byte>, target: seq<Buffer>, source: seq<Buffer>, max: nat) returns (total: nat)
    requires CopyArgs(mem.Length, target, source)
    modifies mem
    ensures total == Min(Min(|Flat(target)|, |Flat(source)|), max)
    ensures Copied(old(mem[..]), mem[..], Flat(target), Flat(source), total)
  {
    hide Copied, CopyArgs;
    NothingCopied(mem[..], target, source);
    total := 0;
    var ti, to, si, so := 0, 0, 0, 0;
    while total != max && ti != |target| && si != |source|
      invariant Cursor(target, ti, to, total) && Cursor(source, si, so, total) && total <= max
      invariant Copied(old(mem[..]), mem[..], Flat(target), Flat(source), total)
      decreases |target| - ti + |source| - si, max - total
    {
      var tSize, sSize := Offset(target[ti], to).size, Offset(source[si], so).size;
      var n := CopyRound(mem, old(mem[..]), target, source, ti, to, si, so, max - total, total);
      CursorMove(target, ti, to, total, n);
      CursorMove(source, si, so, total, n);
      total := total + n;
      if n == tSize { ti, to := ti + 1, 0; } else { to := to + n; }
      if n == sSize { si, so := si + 1, 0; } else { so := so + n; }
    }
    CursorWithin(target, ti, to, total);
    CursorWithin(source, si, so, total);
    if total != max {
      if ti == |target| {
        CursorEnd(target, total);
      } else {
        CursorEnd(source, total);
      }
    }
  }
}
