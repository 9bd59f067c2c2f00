/**
 The put and get areas of the socket stream buffer under partial transfers. The
 socket is a script of outcomes; the end of a script stands for the moment the
 stream's expiry time passes.
 */
module SocketStreambufs {
  import opened Basics

  const BUFFER_SIZE := 512
  const PUTBACK_MAX := 8

  /** One call of send: some bytes went out, it would block and the poll succeeded, or it failed. */
  datatype SendOutcome = Sent(atMost: nat) | SendAgain | SendFailed

  /** A socket that takes at least a byte per call, for long enough to empty a full put area. */
  predicate Willing(net: seq<SendOutcome>) {
    |net| >= BUFFER_SIZE && forall i :: 0 <= i < |net| ==> net[i].Sent?
  }

  /** The first send that does not merely ask to try again takes some bytes. */
  predicate TakesSome(net: seq<SendOutcome>) {
    net != [] && (net[0].Sent? || (net[0].SendAgain? && TakesSome(net[1..])))
  }

  /** How many of `n` bytes the send loop gets out. */
  function Taken(n: nat, net: seq<SendOutcome>): (k: nat)
    ensures k <= n && (n > 0 ==> (k > 0 <==> TakesSome(net)))
    decreases |net|
  {
    if n == 0 || net == [] || net[0].SendFailed? then 0
    else if net[0].SendAgain? then Taken(n, net[1..])
    else var k := Min(net[0].atMost + 1, n); k + Taken(n - k, net[1..])
  }

  /** The first send that fails, or the end of the script. */
  function FirstFailure(net: seq<SendOutcome>): (i: nat)
    ensures i <= |net| && (i < |net| ==> net[i].SendFailed?) && forall j :: 0 <= j < i ==> !net[j].SendFailed?
  {
    if net == [] || net[0].SendFailed? then 0 else 1 + FirstFailure(net[1..])
  }

  /** How many bytes the sends take together, however many there are to send. */
  function Capacity(net: seq<SendOutcome>): nat {
    if net == [] then 0 else (if net[0].Sent? then net[0].atMost + 1 else 0) + Capacity(net[1..])
  }

  /** The loop gets out what the sends before the first failure take; those that ask to try again cost nothing. */
  lemma {:induction false} TakenIsCapacity(n: nat, net: seq<SendOutcome>)
    ensures Taken(n, net) == Min(n, Capacity(net[..FirstFailure(net)]))
    decreases |net|
  {
    if n > 0 && net != [] && !net[0].SendFailed? {
      var i := FirstFailure(net);
      assert net[..i][1..] == net[1..][..i - 1] && net[..i][0] == net[0];
      TakenIsCapacity(if net[0].SendAgain? then n else n - Min(net[0].atMost + 1, n), net[1..]);
    }
  }

  /** One round of the send loop. */
  lemma TakenAt(n: nat, net: seq<SendOutcome>, i: nat)
    requires n > 0 && i < |net|
    ensures Taken(n, net[i..]) == match net[i]
      case Sent(atMost) => var k := Min(atMost + 1, n); k + Taken(n - k, net[i + 1..])
      case SendAgain => Taken(n, net[i + 1..])
      case SendFailed => 0
  {
    assert net[i..][0] == net[i] && net[i..][1..] == net[i + 1..];
  }

  /** After `i` outcomes: `sent` bytes are on the wire, the others are left. */
  ghost predicate Sending(output: seq<char>, left: seq<char>, sent: nat, wire0: seq<char>, wire: seq<char>, net: seq<SendOutcome>, i: nat) {
    && i <= |net| && sent <= |output| && left == output[sent..] && wire == wire0 + output[..sent]
    && (Willing(net) ==> i <= sent)
    && sent + Taken(|left|, net[i..]) == Taken(|output|, net)
  }

  lemma SendStarts(output: seq<char>, net: seq<SendOutcome>, wire: seq<char>)
    ensures Sending(output, output, 0, wire, wire, net, 0)
  {
    assert net[0..] == net && output[..0] == [] && wire + [] == wire;
    hide Taken;
  }

  lemma SliceMore(output: seq<char>, sent: nat, bytes: nat, wire: seq<char>)
    requires sent + bytes <= |output|
    ensures wire + output[..sent] + output[sent..][..bytes] == wire + output[..sent + bytes]
    ensures output[sent..][bytes..] == output[sent + bytes..]
  {
  }

  /** The loop gives up: the socket has failed or the time is over. */
  lemma SendStops(output: seq<char>, left: seq<char>, sent: nat, wire0: seq<char>, wire: seq<char>, net: seq<SendOutcome>, i: nat)
    requires Sending(output, left, sent, wire0, wire, net, i) && |left| > 0 && (i == |net| || net[i].SendFailed?)
    ensures sent == Taken(|output|, net) < |output| && wire == wire0 + output[..sent]
    ensures !(Willing(net) && |output| <= BUFFER_SIZE)
  {
    assert i == |net| ==> net[i..] == [];
    assert Taken(|left|, []) == 0;
    hide Taken;
    if i < |net| {
      TakenAt(|left|, net, i);
    }
  }

  lemma SendWaits(output: seq<char>, left: seq<char>, sent: nat, wire0: seq<char>, wire: seq<char>, net: seq<SendOutcome>, i: nat)
    requires Sending(output, left, sent, wire0, wire, net, i) && |left| > 0 && i < |net| && net[i].SendAgain?
    ensures Sending(output, left, sent, wire0, wire, net, i + 1)
  {
    hide Taken;
    TakenAt(|left|, net, i);
  }

  lemma SendSome(output: seq<char>, left: seq<char>, sent: nat, wire0: seq<char>, wire: seq<char>, net: seq<SendOutcome>, i: nat, bytes: nat)
    requires Sending(output, left, sent, wire0, wire, net, i) && |left| > 0 && i < |net| && net[i].Sent?
    requires bytes == Min(net[i].atMost + 1, |left|)
    ensures Sending(output, left[bytes..], sent + bytes, wire0, wire + left[..bytes], net, i + 1)
  {
    TakenAt(|left|, net, i);
    SliceMore(output, sent, bytes, wire0);
    hide Taken, Willing;
    assert 0 < bytes <= |left| == |output| - sent;
    assert left[bytes..] == output[sent + bytes..] && |left[bytes..]| == |left| - bytes;
  }

  lemma SendEnds(output: seq<char>, left: seq<char>, sent: nat, wire0: seq<char>, wire: seq<char>, net: seq<SendOutcome>, i: nat)
    requires Sending(output, left, sent, wire0, wire, net, i) && |left| == 0
    ensures sent == |output| == Taken(|output|, net) && wire == wire0 + output[..sent]
  {
    assert Taken(0, net[i..]) == 0;
  }

  /** Either the socket takes everything or it takes nothing. */
  predicate AllOrNothing(net: seq<SendOutcome>) {
    Willing(net) || !TakesSome(net)
  }

  /** One call of recv. */
  datatype RecvOutcome = Received(bytes: seq<char>) | EndOfFile | RecvAgain | RecvFailed

  /** The first recv that does not merely ask to try again, or the end of the script. */
  function Decisive(net: seq<RecvOutcome>): (i: nat)
    ensures i <= |net| && (i < |net| ==> !net[i].RecvAgain?) && forall j :: 0 <= j < i ==> net[j].RecvAgain?
  {
    if net == [] || !net[0].RecvAgain? then 0 else 1 + Decisive(net[1..])
  }

  class SocketStreambuf {
    var putBuffer: seq<char>     // BUFFER_SIZE characters, or none in unbuffered mode
    var pptr: nat                // pbase() is 0, epptr() is |putBuffer|
    var getBuffer: seq<char>
    var gptr: nat
    var egptr: nat
    ghost var wire: seq<char>       // every byte send has taken
    ghost var accepted: seq<char>   // every character put into the stream
    ghost var received: seq<char>   // every byte recv has delivered
    ghost var consumed: seq<char>   // every character got from the stream
    ghost var intact: bool          // no transfer of output has failed or expired after sending some bytes

    ghost function Pending(): seq<char>
      requires pptr <= |putBuffer|
      reads this
    {
      putBuffer[..pptr]
    }

    /** How many bytes overflow has to send. */
    ghost function ToSend(c: Option<char>): nat
      reads this
    {
      if |putBuffer| > 0 then pptr else if c.Some? then 1 else 0
    }

    ghost predicate Valid()
      reads this
    {
      && pptr <= |putBuffer| && (|putBuffer| == 0 || |putBuffer| == 512)
      && |getBuffer| == 512 && 8 <= gptr <= egptr <= 512
      && (intact ==> wire + Pending() == accepted)
      && consumed + getBuffer[gptr..egptr] == received
    }

    constructor ()
      ensures Valid() && intact && accepted == [] && received == [] && |putBuffer| == BUFFER_SIZE && Pending() == []
    {
      putBuffer, pptr := seq(BUFFER_SIZE, _ => '\0'), 0;
      getBuffer, gptr, egptr := seq(BUFFER_SIZE, _ => '\0'), PUTBACK_MAX, PUTBACK_MAX;
      wire, accepted, received, consumed, intact := [], [], [], [], true;
    }

    /** The send loop of overflow. */
    method SendAll(output: seq<char>, net: seq<SendOutcome>) returns (ok: bool, ghost sent: nat)
      modifies this`wire
      ensures sent == Taken(|output|, net) && wire == old(wire) + output[..sent]
      ensures ok <==> sent == |output|
      ensures sent == Min(|output|, Capacity(net[..FirstFailure(net)]))
      ensures Willing(net) && |output| <= BUFFER_SIZE ==> ok
    {
      var left := output;
      sent := 0;
      var i := 0;
      hide Taken, TakesSome, Sending;
      TakenIsCapacity(|output|, net);
      SendStarts(output, net, wire);
      while |left| > 0
        invariant i <= |net| && Sending(output, left, sent, old(wire), wire, net, i)
        decreases |net| - i
      {
        if i == |net| {
          SendStops(output, left, sent, old(wire), wire, net, i);
          return false, sent;                     // past the expiry time
        }
        match net[i] {
          case Sent(atMost) =>
            var bytes := Min(atMost + 1, |left|); // at least one byte
            SendSome(output, left, sent, old(wire), wire, net, i, bytes);
            wire := wire + left[..bytes];
            sent := sent + bytes;
            left := left[bytes..];
          case SendAgain =>
            SendWaits(output, left, sent, old(wire), wire, net, i);
          case SendFailed =>
            SendStops(output, left, sent, old(wire), wire, net, i);
            return false, sent;
        }
        i := i + 1;
      }
      SendEnds(output, left, sent, old(wire), wire, net, i);
      ok := true;
    }

    /** overflow: flush what is pending, then store or send the new character. */
    method Overflow(c: Option<char>, net: seq<SendOutcome>) returns (ok: bool, ghost sent: nat)
      requires Valid()
      modifies this
      ensures Valid() && |putBuffer| == old(|putBuffer|)
      ensures (old(|putBuffer|) == 0 && c.None?) || Willing(net) ==> ok
      ensures ok ==> intact == old(intact) && wire + Pending() == old(wire + Pending()) + (if c.Some? then [c.value] else [])
      ensures ok ==> accepted == old(accepted) + if c.Some? then [c.value] else []
      ensures ok ==> if old(|putBuffer|) > 0
        then wire == old(wire + Pending()) && Pending() == (if c.Some? then [c.value] else [])
        else wire == old(wire) + (if c.Some? then [c.value] else []) && Pending() == []
      ensures !ok ==> accepted == old(accepted) && Pending() == old(Pending())
      ensures ok <==> Taken(old(ToSend(c)), net) == old(ToSend(c))
      ensures !ok ==> sent == Taken(old(ToSend(c)), net) <= |old(Pending())| && wire == old(wire) + old(Pending())[..sent]
      ensures !ok ==> intact == (old(intact) && !TakesSome(net))
      ensures !ok ==> (wire + Pending() == old(wire + Pending()) <==> !TakesSome(net))
      ensures unchanged(`received) && unchanged(`consumed)
    {
      var output: seq<char>;
      if |putBuffer| == 0 {
        if c.None? {
          return true, 0;
        }
        output := [c.value];
      } else {
        output := putBuffer[..pptr];
      }
      ok, sent := SendAll(output, net);
      if !ok {
        intact := intact && !TakesSome(net);
        assert |wire + Pending()| == |old(wire + Pending())| + sent;
        assert sent == 0 ==> wire == old(wire);
        return;
      }
      assert output[..sent] == output;
      if |putBuffer| != 0 {
        pptr := 0;
        if c.None? {
          return;
        }
        putBuffer := putBuffer[0 := c.value];
        pptr := 1;
        assert putBuffer[..1] == [c.value];
      }
      accepted := accepted + [c.value];
    }

    /** sputc: store the character if there is room, else overflow. */
    method Put(c: char, net: seq<SendOutcome>) returns (ok: bool)
      requires Valid()
      modifies this
      ensures Valid() && |putBuffer| == old(|putBuffer|) && (Willing(net) ==> ok)
      ensures ok ==> intact == old(intact) && accepted == old(accepted) + [c]
      ensures old(pptr) < old(|putBuffer|) ==> ok && wire == old(wire) && Pending() == old(Pending()) + [c]
      ensures !ok ==> intact == (old(intact) && !TakesSome(net)) && accepted == old(accepted)
      ensures unchanged(`received) && unchanged(`consumed)
    {
      if pptr < |putBuffer| {
        assert putBuffer[pptr := c][..pptr + 1] == putBuffer[..pptr] + [c];
        putBuffer := putBuffer[pptr := c];
        pptr := pptr + 1;
        accepted := accepted + [c];
        assert wire + Pending() == wire + old(Pending()) + [c];
        ok := true;
      } else {
        ghost var sent;
        ok, sent := Overflow(Some(c), net);
      }
    }

    /** sync empties the put area. */
    method Sync(net: seq<SendOutcome>) returns (ok: bool)
      requires Valid()
      modifies this
      ensures Valid() && accepted == old(accepted) && |putBuffer| == old(|putBuffer|) && (Willing(net) ==> ok)
      ensures ok ==> intact == old(intact) && Pending() == [] && wire == old(wire + Pending())
      ensures !ok ==> intact == (old(intact) && !TakesSome(net)) && Pending() == old(Pending())
      ensures var sent := Taken(|old(Pending())|, net);
        wire == old(wire) + old(Pending())[..sent] && (ok <==> sent == |old(Pending())|)
      ensures unchanged(`received) && unchanged(`consumed)
    {
      ghost var sent;
      ok, sent := Overflow(None, net);
      assert wire + [] == wire;
    }

    /** setbuf(s, n): switch to unbuffered mode, only for a null `s` and `n` of 0 while nothing is pending. */
    method Setbuf(isNull: bool, n: int) returns (ok: bool)
      requires Valid()
      modifies this
      ensures Valid() && intact == old(intact) && accepted == old(accepted)
      ensures ok <==> old(pptr) == 0 && isNull && n == 0
      ensures ok ==> |putBuffer| == 0 && wire == old(wire)
      ensures !ok ==> putBuffer == old(putBuffer) && pptr == old(pptr) && wire == old(wire)
      ensures unchanged(`received) && unchanged(`consumed)
    {
      ok := pptr == 0 && isNull && n == 0;
      if ok {
        putBuffer, pptr := [], 0;
        assert old(Pending()) == [] == Pending();
        ghost var sent;
        var synced: bool;
        synced, sent := Overflow(None, []);
        assert wire + [] == wire && old(wire) + [] == old(wire);
      }
    }

    /** underflow: refill an empty get area behind the putback space. */
    method Underflow(net: seq<RecvOutcome>) returns (c: Option<char>)
      requires Valid() && forall i :: 0 <= i < |net| && net[i].Received? ==> 0 < |net[i].bytes| <= BUFFER_SIZE - PUTBACK_MAX
      modifies this`getBuffer, this`gptr, this`egptr, this`received
      ensures Valid()
      ensures var d := Decisive(net);
        c.Some? <==> old(gptr) == old(egptr) && d < |net| && net[d].Received?
      ensures c.Some? ==> gptr < egptr && c.value == getBuffer[gptr] && received == old(received) + net[Decisive(net)].bytes
      ensures c.Some? ==> gptr == 8 && getBuffer[8..egptr] == net[Decisive(net)].bytes && getBuffer[..8] == old(getBuffer)[..8]
      ensures c.None? ==> received == old(received) && gptr == old(gptr) && egptr == old(egptr) && getBuffer == old(getBuffer)
    {
      if gptr != egptr {
        return None;
      }
      for i := 0 to |net|
        invariant unchanged(`getBuffer) && unchanged(`gptr) && unchanged(`egptr) && unchanged(`received)
        invariant i <= Decisive(net)
      {
        match net[i] {
          case Received(bytes) =>
            getBuffer := getBuffer[..PUTBACK_MAX] + bytes + getBuffer[PUTBACK_MAX + |bytes|..];
            gptr, egptr := PUTBACK_MAX, PUTBACK_MAX + |bytes|;
            received := received + bytes;
            assert getBuffer[gptr..egptr] == bytes;
            return Some(getBuffer[gptr]);
          case EndOfFile => return None;
          case RecvAgain =>
          case RecvFailed => return None;
        }
      }
      c := None;                                  // past the expiry time
    }

    /** sbumpc: take the next character, refilling the get area if it is empty. */
    method Get(net: seq<RecvOutcome>) returns (c: Option<char>)
      requires Valid() && forall i :: 0 <= i < |net| && net[i].Received? ==> 0 < |net[i].bytes| <= BUFFER_SIZE - PUTBACK_MAX
      modifies this
      ensures Valid() && consumed == old(consumed) + (if c.Some? then [c.value] else [])
      ensures old(gptr) < old(egptr) ==> c == Some(old(getBuffer[gptr]))
      ensures old(gptr) == old(egptr) ==> (c.Some? <==> Decisive(net) < |net| && net[Decisive(net)].Received?)
      ensures accepted == old(accepted) && wire == old(wire) && intact == old(intact)
    {
      hide Decisive;
      if gptr == egptr {
        c := Underflow(net);
        if c.None? {
          return;
        }
      }
      c := Some(getBuffer[gptr]);
      assert getBuffer[gptr..egptr] == [getBuffer[gptr]] + getBuffer[gptr + 1..egptr];
      consumed := consumed + [getBuffer[gptr]];
      gptr := gptr + 1;
    }
  }

  // ---------------------------------------------------------------------------
  // Whole sessions
  // ---------------------------------------------------------------------------

  datatype Op = PutChar(c: char, net: seq<SendOutcome>) | Flush(net: seq<SendOutcome>) | SetBuffer(isNull: bool, n: int)

  predicate AllWilling(ops: seq<Op>) {
    forall i :: 0 <= i < |ops| && !ops[i].SetBuffer? ==> Willing(ops[i].net)
  }

  /** The characters of the PutChar operations. */
  function Chars(ops: seq<Op>): seq<char> {
    if ops == [] then [] else
      var last := ops[|ops| - 1];
      Chars(ops[..|ops| - 1]) + if last.PutChar? then [last.c] else []
  }

  /**
   Any session of puts, flushes and switches to unbuffered mode under arbitrary
   partial sends, closed by a flush: if every transfer succeeded, the wire has
   every character in order; a failed transfer that sent nothing loses nothing.
   */
  method OutputSession(sb: SocketStreambuf, ops: seq<Op>, last: seq<SendOutcome>) returns (ok: bool)
    requires sb.Valid() && sb.intact && sb.accepted == []
    modifies sb
    ensures sb.Valid()
    ensures ok ==> sb.intact && sb.wire == Chars(ops)
    ensures sb.intact ==> sb.wire + sb.Pending() == sb.accepted
    ensures AllWilling(ops) && Willing(last) ==> ok
    ensures (forall i :: 0 <= i < |ops| && !ops[i].SetBuffer? ==> AllOrNothing(ops[i].net)) && AllOrNothing(last) ==> sb.intact
  {
    ok := true;
    for i := 0 to |ops|
      invariant sb.Valid() && (ok ==> sb.intact && sb.accepted == Chars(ops[..i]))
      invariant AllWilling(ops) ==> ok
      invariant (forall j :: 0 <= j < |ops| && !ops[j].SetBuffer? ==> AllOrNothing(ops[j].net)) ==> sb.intact
    {
      assert ops[..i + 1][..i] == ops[..i];
      match ops[i] {
        case PutChar(c, net) => var stored := sb.Put(c, net); ok := ok && stored;
        case Flush(net) => var flushed := sb.Sync(net); ok := ok && flushed;
        case SetBuffer(isNull, n) => var switched := sb.Setbuf(isNull, n);
      }
    }
    assert ops[..|ops|] == ops;
    var flushed := sb.Sync(last);
    if flushed {
      assert sb.wire + [] == sb.wire;
    }
    ok := ok && flushed;
  }

  /** After a flush that fails behind its first byte, the next flush sends that byte again. */
  method ResentByte() returns (sb: SocketStreambuf)
    ensures sb.accepted == ['a', 'b'] && sb.wire == ['a', 'a', 'b']
  {
    sb := new SocketStreambuf();
    var a := sb.Put('a', []);
    var b := sb.Put('b', []);
    var cut := [Sent(0), SendFailed];
    assert cut[1..] == [SendFailed] && Taken(2, cut) == 1;
    assert sb.Pending() == ['a', 'b'] && sb.wire == [];
    var failed := sb.Sync(cut);
    assert sb.wire == ['a'];
    var go := [Sent(1)];
    assert Taken(2, go) == 2;
    var ok := sb.Sync(go);
  }
}
