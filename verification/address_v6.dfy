/**
 Stepping through IPv6 addresses: the byte-wise carry and borrow chains of the
 iterator, and the range built on it. An address is a big-endian number with a
 scope; the chains are proved for addresses of any length.
 */
module AddressesV6 {
  import opened Basics

  const LENGTH := 16

  // ---------------------------------------------------------------------------
  // Big-endian numbers
  // ---------------------------------------------------------------------------

  function Pow256(n: nat): (p: nat)
    ensures p > 0
  {
    if n == 0 then 1 else 256 * Pow256(n - 1)
  }

  function Value(b: seq<byte>): nat {
    if b == [] then 0 else 256 * Value(b[..|b| - 1]) + b[|b| - 1] as nat
  }

  lemma {:induction false} ValueBound(b: seq<byte>)
    ensures Value(b) < Pow256(|b|)
  {
    if b != [] {
      ValueBound(b[..|b| - 1]);
    }
  }

  lemma {:induction false} ValueInjective(a: seq<byte>, b: seq<byte>)
    requires |a| == |b| && Value(a) == Value(b)
    ensures a == b
  {
    if a != [] {
      var n := |a| - 1;
      assert Value(a[..n]) == Value(b[..n]) && a[n] == b[n];
      ValueInjective(a[..n], b[..n]);
      assert a == a[..n] + [a[n]] && b == b[..n] + [b[n]];
    }
  }

  // ---------------------------------------------------------------------------
  // The carry chains
  // ---------------------------------------------------------------------------

  function Inc(b: seq<byte>): (r: seq<byte>)
    ensures |r| == |b|
  {
    if b == [] then [] else
      var n := |b| - 1;
      if b[n] < 0xFF then b[..n] + [b[n] + 1] else Inc(b[..n]) + [0]
  }

  function Dec(b: seq<byte>): (r: seq<byte>)
    ensures |r| == |b|
  {
    if b == [] then [] else
      var n := |b| - 1;
      if b[n] > 0 then b[..n] + [b[n] - 1] else Dec(b[..n]) + [0xFF]
  }

  /** Incrementing adds one, modulo the number of addresses. */
  lemma {:induction false} IncAddsOne(b: seq<byte>)
    ensures Value(Inc(b)) == if Value(b) + 1 == Pow256(|b|) then 0 else Value(b) + 1
  {
    if b != [] {
      var n := |b| - 1;
      IncAddsOne(b[..n]);
      ValueBound(b[..n]);
      assert Inc(b)[..n] == if b[n] < 0xFF then b[..n] else Inc(b[..n]);
    }
  }

  /** Decrementing undoes incrementing, and the other way round. */
  lemma {:induction false} IncDecInverse(b: seq<byte>)
    ensures Dec(Inc(b)) == b && Inc(Dec(b)) == b
  {
    if b != [] {
      var n := |b| - 1;
      IncDecInverse(b[..n]);
      assert b == b[..n] + [b[n]];
      assert Inc(b)[..n] == (if b[n] < 0xFF then b[..n] else Inc(b[..n]));
      assert Dec(b)[..n] == (if b[n] > 0 then b[..n] else Dec(b[..n]));
    }
  }

  lemma {:induction false} IncOnCarry(b: seq<byte>, k: nat)
    requires k <= |b| && forall j :: k <= j < |b| ==> b[j] == 0xFF
    ensures Inc(b) == Inc(b[..k]) + seq(|b| - k, _ => 0)
    decreases |b|
  {
    if k < |b| {
      var n := |b| - 1;
      IncOnCarry(b[..n], k);
      assert b[..n][..k] == b[..k];
    } else {
      assert b[..k] == b;
    }
  }

  lemma {:induction false} DecOnBorrow(b: seq<byte>, k: nat)
    requires k <= |b| && forall j :: k <= j < |b| ==> b[j] == 0
    ensures Dec(b) == Dec(b[..k]) + seq(|b| - k, _ => 0xFF)
    decreases |b|
  {
    if k < |b| {
      var n := |b| - 1;
      DecOnBorrow(b[..n], k);
      assert b[..n][..k] == b[..k];
    } else {
      assert b[..k] == b;
    }
  }

  /** operator++: the carry loop, in place. */
  method Increment(addr: array<byte>)
    modifies addr
    ensures addr[..] == Inc(old(addr[..]))
  {
    ghost var was := addr[..];
    var i := addr.Length - 1;
    while i >= 0
      invariant -1 <= i < addr.Length
      invariant forall j :: 0 <= j <= i ==> addr[j] == was[j]
      invariant forall j :: i < j < addr.Length ==> was[j] == 0xFF && addr[j] == 0
    {
      if addr[i] < 0xFF {
        addr[i] := addr[i] + 1;
        IncOnCarry(was, i + 1);
        assert was[..i + 1][..i] == was[..i];
        return;
      }
      addr[i] := 0;
      i := i - 1;
    }
    IncOnCarry(was, 0);
  }

  /** operator--: the borrow loop, in place. */
  method Decrement(addr: array<byte>)
    modifies addr
    ensures addr[..] == Dec(old(addr[..]))
  {
    ghost var was := addr[..];
    var i := addr.Length - 1;
    while i >= 0
      invariant -1 <= i < addr.Length
      invariant forall j :: 0 <= j <= i ==> addr[j] == was[j]
      invariant forall j :: i < j < addr.Length ==> was[j] == 0 && addr[j] == 0xFF
    {
      if addr[i] > 0 {
        addr[i] := addr[i] - 1;
        DecOnBorrow(was, i + 1);
        assert was[..i + 1][..i] == was[..i];
        return;
      }
      addr[i] := 0xFF;
      i := i - 1;
    }
    DecOnBorrow(was, 0);
  }

  // ---------------------------------------------------------------------------
  // Iterators
  // ---------------------------------------------------------------------------

  datatype Address = Address(bytes: seq<byte>, scope: nat)

  ghost predicate IsV6(a: Address) {
    |a.bytes| == LENGTH
  }

  const COUNT: nat := Pow256(LENGTH)

  function Next(a: Address): Address {
    a.(bytes := Inc(a.bytes))
  }

  function Steps(a: Address, k: nat): Address {
    if k == 0 then a else Next(Steps(a, k - 1))
  }

  lemma {:induction false} StepsKeep(a: Address, k: nat)
    ensures |Steps(a, k).bytes| == |a.bytes| && Steps(a, k).scope == a.scope
  {
    if k > 0 {
      StepsKeep(a, k - 1);
    }
  }

  /** There are 2^128 addresses. */
  lemma AddressCount()
    ensures COUNT == 0x1_0000_0000_0000_0000_0000_0000_0000_0000
  {
    assert Pow256(4) == 0x1_0000_0000;
    assert Pow256(8) == 0x1_0000_0000_0000_0000;
    assert Pow256(12) == 0x1_0000_0000_0000_0000_0000_0000;
  }

  /** `k` increments add `k`, modulo the number of addresses. */
  lemma {:induction false} StepsAdd(a: Address, k: nat)
    requires IsV6(a) && k < COUNT
    ensures Value(Steps(a, k).bytes) ==
            if Value(a.bytes) + k < COUNT then Value(a.bytes) + k else Value(a.bytes) + k - COUNT
  {
    hide Pow256, Value;
    StepsKeep(a, k);
    ValueBound(a.bytes);
    if k > 0 {
      StepsAdd(a, k - 1);
      StepsKeep(a, k - 1);
      IncAddsOne(Steps(a, k - 1).bytes);
    }
  }

  /** The number of increments that lead from `first` to `last`. */
  function Distance(first: Address, last: Address): int {
    if Value(first.bytes) <= Value(last.bytes) then Value(last.bytes) - Value(first.bytes)
    else Value(last.bytes) - Value(first.bytes) + COUNT
  }

  /** With equal scopes, exactly Distance increments lead from begin to end, and no fewer. */
  lemma IterationEnds(first: Address, last: Address)
    requires IsV6(first) && IsV6(last) && first.scope == last.scope
    ensures 0 <= Distance(first, last) < COUNT
    ensures Steps(first, Distance(first, last)) == last
    ensures forall k :: 0 <= k < Distance(first, last) ==> Steps(first, k) != last
  {
    ValueBound(first.bytes);
    ValueBound(last.bytes);
    hide Pow256, Value, Steps;
    var d := Distance(first, last);
    StepsAdd(first, d);
    StepsKeep(first, d);
    ValueInjective(Steps(first, d).bytes, last.bytes);
    forall k | 0 <= k < d
      ensures Steps(first, k) != last
    {
      StepsAdd(first, k);
    }
  }

  /** The iteration reaches end exactly when the scopes are equal. */
  lemma IterationEndsIff(first: Address, last: Address)
    requires IsV6(first) && IsV6(last)
    ensures (exists k: nat :: Steps(first, k) == last) <==> first.scope == last.scope
  {
    hide Pow256, Value, Steps, Distance;
    if k: nat :| Steps(first, k) == last {
      StepsKeep(first, k);
    }
    if first.scope == last.scope {
      IterationEnds(first, last);
    }
  }

  // ---------------------------------------------------------------------------
  // Ranges
  // ---------------------------------------------------------------------------

  /** memcmp(a, b) < 0 on byte strings of one length: the first difference decides. */
  ghost predicate MemLess(a: seq<byte>, b: seq<byte>)
    requires |a| == |b|
  {
    exists i :: 0 <= i < |a| && a[..i] == b[..i] && a[i] < b[i]
  }

  lemma {:induction false} MemLessGoesUp(a: seq<byte>, b: seq<byte>)
    requires |a| == |b| && MemLess(a, b)
    ensures Value(a) < Value(b)
  {
    var n := |a| - 1;
    var i :| 0 <= i < |a| && a[..i] == b[..i] && a[i] < b[i];
    if i < n {
      assert a[..n][..i] == a[..i] && b[..n][..i] == b[..i];
      assert a[..n][i] < b[..n][i];
      MemLessGoesUp(a[..n], b[..n]);
    }
  }

  lemma {:induction false} LessIsMemLess(a: seq<byte>, b: seq<byte>)
    requires |a| == |b| && Value(a) < Value(b)
    ensures MemLess(a, b)
  {
    var n := |a| - 1;
    if Value(a[..n]) < Value(b[..n]) {
      LessIsMemLess(a[..n], b[..n]);
      var i :| 0 <= i < n && a[..n][..i] == b[..n][..i] && a[..n][i] < b[..n][i];
      assert a[..i] == a[..n][..i] && b[..i] == b[..n][..i];
    } else {
      ValueInjective(a[..n], b[..n]);
      assert a[..n] == b[..n] && a[n] < b[n];
    }
  }

  /** Comparing bytes compares numbers. */
  lemma MemLessIsLess(a: seq<byte>, b: seq<byte>)
    requires |a| == |b|
    ensures MemLess(a, b) <==> Value(a) < Value(b)
  {
    if MemLess(a, b) {
      MemLessGoesUp(a, b);
    }
    if Value(a) < Value(b) {
      LessIsMemLess(a, b);
    }
  }

  /** operator< on addresses: bytes first, then the scope. */
  ghost predicate Less(a: Address, b: Address)
    requires |a.bytes| == |b.bytes|
  {
    MemLess(a.bytes, b.bytes) || (a.bytes == b.bytes && a.scope < b.scope)
  }

  datatype Range = Range(first: Address, last: Address)

  predicate Empty(r: Range) {
    r.first == r.last
  }

  ghost function Find(r: Range, addr: Address): Address
    requires IsV6(addr) && IsV6(r.first) && IsV6(r.last)
  {
    if !Less(addr, r.first) && Less(addr, r.last) then addr else r.last
  }

  /** The addresses an iteration from begin on visits before it meets end, if it ever does. */
  ghost predicate Visited(r: Range, addr: Address) {
    exists k: nat :: Steps(r.first, k) == addr && forall j :: 0 <= j <= k ==> Steps(r.first, j) != r.last
  }

  ghost predicate WithinDistance(r: Range, addr: Address) {
    exists k :: 0 <= k < Distance(r.first, r.last) && Steps(r.first, k) == addr
  }

  /** With equal scopes the iteration visits the addresses within the distance of end. */
  lemma VisitedWithin(r: Range, addr: Address)
    requires IsV6(r.first) && IsV6(r.last) && r.first.scope == r.last.scope
    ensures Visited(r, addr) <==> WithinDistance(r, addr)
  {
    IterationEnds(r.first, r.last);
    hide Pow256, Value, Steps, Distance;
    var d := Distance(r.first, r.last);
    if k: nat :| Steps(r.first, k) == addr && forall j :: 0 <= j <= k ==> Steps(r.first, j) != r.last {
      assert k < d;
    }
  }

  /** In a range that does not wrap, these are the addresses of its scope from begin up to end. */
  lemma WithinIsBetween(r: Range, addr: Address)
    requires IsV6(addr) && IsV6(r.first) && IsV6(r.last) && Value(r.first.bytes) <= Value(r.last.bytes)
    ensures WithinDistance(r, addr) <==>
            addr.scope == r.first.scope && Value(r.first.bytes) <= Value(addr.bytes) < Value(r.last.bytes)
  {
    hide Pow256, Value, Steps;
    ValueBound(r.last.bytes);
    if WithinDistance(r, addr) {
      var k :| 0 <= k < Distance(r.first, r.last) && Steps(r.first, k) == addr;
      StepsAdd(r.first, k);
      StepsKeep(r.first, k);
    }
    if addr.scope == r.first.scope && Value(r.first.bytes) <= Value(addr.bytes) < Value(r.last.bytes) {
      var k := Value(addr.bytes) - Value(r.first.bytes);
      StepsAdd(r.first, k);
      StepsKeep(r.first, k);
      ValueInjective(Steps(r.first, k).bytes, addr.bytes);
    }
  }

  /** In a range that wraps, these are the addresses of its scope from begin on and those below end. */
  lemma WithinWrapped(r: Range, addr: Address)
    requires IsV6(addr) && IsV6(r.first) && IsV6(r.last) && Value(r.first.bytes) > Value(r.last.bytes)
    ensures WithinDistance(r, addr) <==>
            addr.scope == r.first.scope && (Value(r.first.bytes) <= Value(addr.bytes) || Value(addr.bytes) < Value(r.last.bytes))
  {
    ValueBound(r.first.bytes);
    ValueBound(addr.bytes);
    hide Pow256, Value, Steps;
    var a, f, l := Value(addr.bytes), Value(r.first.bytes), Value(r.last.bytes);
    if WithinDistance(r, addr) {
      var k :| 0 <= k < Distance(r.first, r.last) && Steps(r.first, k) == addr;
      StepsAdd(r.first, k);
      StepsKeep(r.first, k);
    }
    if addr.scope == r.first.scope && (f <= a || a < l) {
      var k := if f <= a then a - f else a - f + COUNT;
      StepsAdd(r.first, k);
      StepsKeep(r.first, k);
      ValueInjective(Steps(r.first, k).bytes, addr.bytes);
    }
  }

  /** If end has a foreign scope, the iteration never ends and visits every address of the scope of begin. */
  lemma VisitedForever(r: Range, addr: Address)
    requires IsV6(addr) && IsV6(r.first) && r.first.scope != r.last.scope
    ensures Visited(r, addr) <==> addr.scope == r.first.scope
  {
    hide Pow256, Value, Steps;
    if k: nat :| Steps(r.first, k) == addr {
      StepsKeep(r.first, k);
    }
    if addr.scope == r.first.scope {
      IterationEnds(r.first, addr);
      var d := Distance(r.first, addr);
      forall j | 0 <= j <= d
        ensures Steps(r.first, j) != r.last
      {
        StepsKeep(r.first, j);
      }
    }
  }

  /** Which addresses are visited, for every range. */
  lemma VisitedIff(r: Range, addr: Address)
    requires IsV6(addr) && IsV6(r.first) && IsV6(r.last)
    ensures var a, f, l := Value(addr.bytes), Value(r.first.bytes), Value(r.last.bytes);
      Visited(r, addr) <==>
        && addr.scope == r.first.scope
        && (r.first.scope != r.last.scope || (if f <= l then f <= a < l else f <= a || a < l))
  {
    hide Pow256, Value, Visited, WithinDistance;
    if r.first.scope != r.last.scope {
      VisitedForever(r, addr);
    } else {
      VisitedWithin(r, addr);
      if Value(r.first.bytes) <= Value(r.last.bytes) {
        WithinIsBetween(r, addr);
      } else {
        WithinWrapped(r, addr);
      }
    }
  }

  /** The address is not before begin and is before end, by bytes and then by scope. */
  predicate InOrder(r: Range, addr: Address) {
    var a, f, l := Value(addr.bytes), Value(r.first.bytes), Value(r.last.bytes);
    && (f < a || (f == a && r.first.scope <= addr.scope))
    && (a < l || (a == l && addr.scope < r.last.scope))
  }

  /** What find finds, for every range. */
  lemma FindIff(r: Range, addr: Address)
    requires IsV6(addr) && IsV6(r.first) && IsV6(r.last)
    ensures Find(r, addr) != r.last <==> InOrder(r, addr)
    ensures Find(r, addr) != r.last ==> Find(r, addr) == addr
  {
    hide Pow256, Value, MemLess;
    MemLessIsLess(addr.bytes, r.first.bytes);
    MemLessIsLess(addr.bytes, r.last.bytes);
    if Value(addr.bytes) == Value(r.first.bytes) {
      ValueInjective(addr.bytes, r.first.bytes);
    }
    if Value(addr.bytes) == Value(r.last.bytes) {
      ValueInjective(addr.bytes, r.last.bytes);
    }
  }

  /** In a range that does not wrap, the visited addresses are those find finds, apart from foreign scopes. */
  lemma FindTellsVisited(r: Range, addr: Address)
    requires IsV6(addr) && IsV6(r.first) && IsV6(r.last)
    requires r.first.scope == r.last.scope && Value(r.first.bytes) <= Value(r.last.bytes)
    ensures Visited(r, addr) <==> Find(r, addr) != r.last && addr.scope == r.first.scope
    ensures Find(r, addr) != r.last ==> Find(r, addr) == addr
  {
    hide Pow256, Value, Find, Visited;
    VisitedIff(r, addr);
    FindIff(r, addr);
  }

  /** In a range that wraps, find never succeeds, although the iteration visits the first address. */
  lemma FindMissesWrappedRange(r: Range, addr: Address)
    requires IsV6(addr) && IsV6(r.first) && IsV6(r.last) && Value(r.first.bytes) > Value(r.last.bytes)
    ensures Find(r, addr) == r.last && Visited(r, r.first)
  {
    hide Pow256, Value, Find, Visited;
    VisitedIff(r, r.first);
    FindIff(r, addr);
  }

  /** With equal scopes, find together with a look at the scope agrees with the iteration on every address exactly when begin is not after end. */
  lemma FindIsExact(r: Range)
    requires IsV6(r.first) && IsV6(r.last) && r.first.scope == r.last.scope
    ensures (forall addr :: IsV6(addr) ==> (Visited(r, addr) <==> Find(r, addr) != r.last && addr.scope == r.first.scope))
            <==> Value(r.first.bytes) <= Value(r.last.bytes)
  {
    hide Pow256, Value, Find, Visited;
    if Value(r.first.bytes) <= Value(r.last.bytes) {
      forall addr | IsV6(addr)
        ensures Visited(r, addr) <==> Find(r, addr) != r.last && addr.scope == r.first.scope
      {
        FindTellsVisited(r, addr);
      }
    } else {
      FindMissesWrappedRange(r, r.first);
    }
  }

  /** Find can be trusted about the address, whatever the range. */
  predicate Trusted(r: Range, addr: Address) {
    var a, f, l := Value(addr.bytes), Value(r.first.bytes), Value(r.last.bytes);
    if r.first.scope != r.last.scope then
      addr.scope == r.first.scope <==> InOrder(r, addr)
    else if f <= l then
      || addr.scope == r.first.scope || f == l || a < f || a > l
      || (a == f && addr.scope < r.first.scope) || (a == l && addr.scope > r.last.scope)
    else
      addr.scope != r.first.scope || l <= a < f
  }

  /**
   The exact condition for every address and every range. If begin and end have the
   same scope and begin is not after end, find errs only about addresses of a foreign
   scope that lie between the two; if the range wraps, about the visited ones; if
   the scopes differ, about the visited ones that are out of order and the foreign
   ones that are in order.
   */
  lemma FindAgreesExactly(r: Range, addr: Address)
    requires IsV6(addr) && IsV6(r.first) && IsV6(r.last)
    ensures (Find(r, addr) != r.last <==> Visited(r, addr)) <==> Trusted(r, addr)
  {
    hide Pow256, Value, Find, Visited;
    VisitedIff(r, addr);
    FindIff(r, addr);
  }

  /** find agrees with the iteration on every address of no range but an empty one. */
  lemma FindAgreesOnlyOnEmpty(r: Range)
    requires IsV6(r.first) && IsV6(r.last)
    ensures (forall addr :: IsV6(addr) ==> (Find(r, addr) != r.last <==> Visited(r, addr))) <==> Empty(r)
  {
    hide Pow256, Value, Find, Visited, Inc;
    var f, l := Value(r.first.bytes), Value(r.last.bytes);
    if Empty(r) {
      forall addr | IsV6(addr)
        ensures Find(r, addr) != r.last <==> Visited(r, addr)
      {
        FindAgreesExactly(r, addr);
      }
    } else if f < l {
      FindAgreesExactly(r, Address(r.first.bytes, r.first.scope + 1));
    } else if f > l {
      FindAgreesExactly(r, r.first);
    } else {
      ValueInjective(r.first.bytes, r.last.bytes);
      var next := Next(r.first);
      NextIsElsewhere(r.first);
      FindAgreesExactly(r, next);
    }
  }

  lemma NextIsElsewhere(a: Address)
    requires IsV6(a)
    ensures IsV6(Next(a)) && Next(a).scope == a.scope && Value(Next(a).bytes) != Value(a.bytes)
  {
    StepsAdd(a, 1);
    StepsKeep(a, 1);
    ValueBound(a.bytes);
    assert Steps(a, 0) == a;
  }

  /** Nothing is visited exactly when the range is empty, which with equal scopes means that end is at no distance. */
  lemma EmptyVisitsNothing(r: Range)
    requires IsV6(r.first) && IsV6(r.last)
    ensures Empty(r) <==> forall addr :: !Visited(r, addr)
    ensures r.first.scope == r.last.scope ==> (Empty(r) <==> Distance(r.first, r.last) == 0)
  {
    assert Steps(r.first, 0) == r.first;
    if r.first.scope == r.last.scope {
      IterationEnds(r.first, r.last);
    }
    hide Pow256, Value, Steps, Distance;
    if r.first != r.last {
      assert Visited(r, r.first);
    }
  }
}
