/**
 The growable buffers over a string or a vector. Both forms keep a count of the
 bytes that belong to the input sequence; the bytes behind it are the output
 sequence that prepare hands out and commit takes in. Both use the same calls on
 their container (resize, which fills with zero, and erase at the front).
 */
module DynamicBuffers {
  import opened Basics
  import opened Buffers

  datatype Dynamic = Dynamic(storage: seq<byte>, size: nat, maxSize: nat)

  ghost predicate Valid(d: Dynamic) {
    d.size <= |d.storage|
  }

  /** The input sequence. */
  function Data(d: Dynamic): seq<byte>
    requires Valid(d)
  {
    d.storage[..d.size]
  }

  /** The output sequence. */
  function Output(d: Dynamic): seq<byte>
    requires Valid(d)
  {
    d.storage[d.size..]
  }

  function Resize(s: seq<byte>, n: nat): (r: seq<byte>)
    ensures |r| == n && r[..Min(n, |s|)] == s[..Min(n, |s|)] && forall i :: |s| <= i < n ==> r[i] == 0
  {
    if n <= |s| then s[..n] else s + seq(n - |s|, _ => 0)
  }

  /** `Fill` is the user writing into the prepared region. */
  datatype Op = Prepare(n: nat) | Fill(at: nat, b: byte) | Commit(n: nat) | Consume(n: nat)

  predicate PrepareFails(d: Dynamic, n: nat) {
    d.size > d.maxSize || d.maxSize - d.size < n
  }

  function Apply(d: Dynamic, op: Op): Dynamic
    requires Valid(d)
  {
    match op
    case Prepare(n) => if PrepareFails(d, n) then d else d.(storage := Resize(d.storage, d.size + n))
    case Fill(at, b) =>
      if d.size + at < |d.storage| then d.(storage := d.storage[d.size + at := b]) else d
    case Commit(n) =>
      var size := d.size + Min(n, |d.storage| - d.size);
      Dynamic(Resize(d.storage, size), size, d.maxSize)
    case Consume(n) =>
      var k := Min(n, d.size);
      Dynamic(d.storage[k..], d.size - k, d.maxSize)
  }

  /** The class; the string and the vector form have the same fields and methods. */
  class DynamicBuffer {
    var storage: seq<byte>
    var size: nat
    const maxSize: nat

    constructor (storage: seq<byte>, maxSize: nat)
      ensures Value() == Dynamic(storage, |storage|, maxSize)
    {
      this.storage, size, this.maxSize := storage, |storage|, maxSize;
    }

    function Value(): Dynamic
      reads this
    {
      Dynamic(storage, size, maxSize)
    }

    /** Returns the position and length of the prepared region, or reports the length_error. */
    method PrepareBytes(n: nat) returns (failed: bool, region: Buffer)
      requires Valid(Value())
      modifies this
      ensures Value() == Apply(old(Value()), Prepare(n))
      ensures failed <==> old(size) + n > maxSize
      ensures !failed ==> region == Buffer(size, n) && size + n == |storage| && size == old(size)
      ensures failed ==> storage == old(storage) && size == old(size)
    {
      failed, region := false, Buffer(0, 0);
      if size > maxSize || maxSize - size < n {
        failed := true;
        return;
      }
      storage := Resize(storage, size + n);
      region := Limited(Offset(Buffer(0, |storage|), size), n);
    }

    method CommitBytes(n: nat)
      requires Valid(Value())
      modifies this
      ensures Value() == Apply(old(Value()), Commit(n))
      ensures size == old(size) + Min(n, |old(storage)| - old(size)) && storage == old(storage)[..size]
    {
      size := size + Min(n, |storage| - size);
      storage := Resize(storage, size);
    }

    method ConsumeBytes(n: nat)
      requires Valid(Value())
      modifies this
      ensures Value() == Apply(old(Value()), Consume(n))
      ensures size == old(size) - Min(n, old(size)) && storage == old(storage)[Min(n, old(size))..]
    {
      var consumeLength := Min(n, size);
      storage := storage[consumeLength..];
      size := size - consumeLength;
    }
  }

  // ---------------------------------------------------------------------------
  // Any sequence of operations
  // ---------------------------------------------------------------------------

  /** The bytes the operation moves into the input sequence. */
  function Committed(d: Dynamic, op: Op): seq<byte>
    requires Valid(d)
  {
    if op.Commit? then Output(d)[..Min(op.n, |Output(d)|)] else []
  }

  /** How many bytes the operation removes from the input sequence. */
  function Consumed(d: Dynamic, op: Op): nat
    requires Valid(d)
  {
    if op.Consume? then Min(op.n, d.size) else 0
  }

  lemma CommitConserves(d: Dynamic, n: nat)
    requires Valid(d)
    ensures var d' := Apply(d, Commit(n));
      Valid(d') && Data(d') == Data(d) + Committed(d, Commit(n)) && |d'.storage| <= |d.storage|
  {
    var k := Min(n, |d.storage| - d.size);
    assert d.storage[..d.size] + d.storage[d.size..][..k] == d.storage[..d.size + k];
  }

  lemma ConsumeConserves(d: Dynamic, n: nat)
    requires Valid(d)
    ensures var d', k := Apply(d, Consume(n)), Min(n, d.size);
      Valid(d') && Data(d') == Data(d)[k..] && |d'.storage| <= |d.storage|
  {
    var k := Min(n, d.size);
    assert d.storage[k..][..d.size - k] == d.storage[..d.size][k..];
  }

  lemma OutputConserves(d: Dynamic, op: Op)
    requires Valid(d) && (op.Prepare? || op.Fill?)
    ensures var d' := Apply(d, op);
      Valid(d') && Data(d') == Data(d) && (|d.storage| <= d.maxSize ==> |d'.storage| <= d.maxSize)
  {
    if op.Prepare? && !PrepareFails(d, op.n) {
      var r := Resize(d.storage, d.size + op.n);
      assert r[..d.size] == r[..Min(d.size + op.n, |d.storage|)][..d.size];
    }
  }

  /** One operation appends what it commits and drops what it consumes. */
  lemma StepConserves(d: Dynamic, op: Op)
    requires Valid(d)
    ensures Valid(Apply(d, op)) && Apply(d, op).maxSize == d.maxSize
    ensures Consumed(d, op) <= |Data(d)|
    ensures Data(Apply(d, op)) == (Data(d) + Committed(d, op))[Consumed(d, op)..]
    ensures |d.storage| <= d.maxSize ==> |Apply(d, op).storage| <= d.maxSize
  {
    hide Resize;
    assert forall s: seq<byte> :: s + [] == s && s[0..] == s;
    match op
    case Commit(n) => CommitConserves(d, n);
    case Consume(n) => ConsumeConserves(d, n);
    case _ => OutputConserves(d, op);
  }

  // ---------------------------------------------------------------------------
  // The two sequences
  // ---------------------------------------------------------------------------

  /** What is documented: an input and an output sequence, and nothing else. */
  datatype Sequences = Sequences(input: seq<byte>, output: seq<byte>)

  function View(d: Dynamic): Sequences
    requires Valid(d)
  {
    Sequences(Data(d), Output(d))
  }

  /** The first `n` bytes, filled up with zeros. */
  ghost predicate IsResized(s: seq<byte>, n: nat, r: seq<byte>) {
    |r| == n && forall i :: 0 <= i < n ==> r[i] == if i < |s| then s[i] else 0
  }

  /**
   What each operation does to the two sequences: prepare makes the output sequence
   `n` long or fails; commit moves its front to the input sequence and discards the
   rest; consume drops the front of the input sequence and keeps the output sequence.
   */
  lemma OperationsOnSequences(d: Dynamic, op: Op)
    requires Valid(d)
    ensures var d' := Apply(d, op);
      && Valid(d') && d'.storage == Data(d') + Output(d')
      && match op
         case Prepare(n) =>
           && Data(d') == Data(d)
           && if |Data(d)| + n > d.maxSize then Output(d') == Output(d) else IsResized(Output(d), n, Output(d'))
         case Fill(at, b) =>
           && Data(d') == Data(d)
           && if at < |Output(d)| then Output(d') == Output(d)[at := b] else Output(d') == Output(d)
         case Commit(n) =>
           Output(d') == [] && Data(d') == Data(d) + (if n < |Output(d)| then Output(d)[..n] else Output(d))
         case Consume(n) =>
           Output(d') == Output(d) && Data(d') == if n < |Data(d)| then Data(d)[n..] else []
  {
    StepConserves(d, op);
    match op
    case Prepare(n) =>
      if !PrepareFails(d, n) {
        PrepareOutput(d, n);
      }
    case Fill(at, b) => FillOutput(d, at, b);
    case Commit(n) => CommitConserves(d, n);
    case Consume(n) => ConsumeConserves(d, n);
  }

  lemma PrepareOutput(d: Dynamic, n: nat)
    requires Valid(d) && !PrepareFails(d, n)
    ensures Valid(Apply(d, Prepare(n))) && IsResized(Output(d), n, Output(Apply(d, Prepare(n))))
  {
    var r := Resize(d.storage, d.size + n);
    var k := Min(d.size + n, |d.storage|);
    forall i | 0 <= i < n
      ensures r[d.size..][i] == if i < |Output(d)| then Output(d)[i] else 0
    {
      if i < |Output(d)| {
        assert r[..k][d.size + i] == d.storage[..k][d.size + i];
      }
    }
  }

  lemma FillOutput(d: Dynamic, at: nat, b: byte)
    requires Valid(d)
    ensures Valid(Apply(d, Fill(at, b)))
    ensures Output(Apply(d, Fill(at, b))) == if at < |Output(d)| then Output(d)[at := b] else Output(d)
  {
  }

  /** A second commit moves nothing: what was not committed is gone. */
  lemma CommitDiscards(d: Dynamic, n: nat, m: nat)
    requires Valid(d)
    ensures var d1 := Apply(d, Commit(n));
      Valid(d1) && d1.storage == Data(d1) && Apply(d1, Commit(m)) == d1
  {
    OperationsOnSequences(d, Commit(n));
    var d1 := Apply(d, Commit(n));
    assert d1.storage[..|d1.storage|] == d1.storage;
  }

  function Run(d: Dynamic, ops: seq<Op>): (r: Dynamic)
    requires Valid(d)
    ensures Valid(r)
    decreases |ops|
  {
    if ops == [] then d else StepConserves(d, ops[0]); Run(Apply(d, ops[0]), ops[1..])
  }

  function AllCommitted(d: Dynamic, ops: seq<Op>): seq<byte>
    requires Valid(d)
    decreases |ops|
  {
    if ops == [] then [] else
      StepConserves(d, ops[0]);
      Committed(d, ops[0]) + AllCommitted(Apply(d, ops[0]), ops[1..])
  }

  function AllConsumed(d: Dynamic, ops: seq<Op>): nat
    requires Valid(d)
    decreases |ops|
  {
    if ops == [] then 0 else
      StepConserves(d, ops[0]);
      Consumed(d, ops[0]) + AllConsumed(Apply(d, ops[0]), ops[1..])
  }

  /** data() is the initial content plus all committed bytes minus all consumed bytes. */
  lemma {:induction false} RunConserves(d: Dynamic, ops: seq<Op>)
    requires Valid(d)
    ensures AllConsumed(d, ops) <= |Data(d) + AllCommitted(d, ops)|
    ensures Data(Run(d, ops)) == (Data(d) + AllCommitted(d, ops))[AllConsumed(d, ops)..]
    ensures |d.storage| <= d.maxSize ==> |Run(d, ops).storage| <= d.maxSize
    decreases |ops|
  {
    if ops == [] {
      return;
    }
    var d1 := Apply(d, ops[0]);
    StepConserves(d, ops[0]);
    RunConserves(d1, ops[1..]);
    hide Apply, Data, Committed, Consumed, Resize;
    CutTwice(Data(d), Committed(d, ops[0]), Consumed(d, ops[0]), AllCommitted(d1, ops[1..]), AllConsumed(d1, ops[1..]));
  }

  lemma CutTwice(a: seq<byte>, c: seq<byte>, k: nat, rest: seq<byte>, more: nat)
    requires k <= |a| && more <= |(a + c)[k..] + rest|
    ensures k + more <= |a + (c + rest)| && ((a + c)[k..] + rest)[more..] == (a + (c + rest))[k + more..]
  {
    assert (a + c)[k..] + rest == (a + (c + rest))[k..];
  }
}
