/**
 The framing of chat messages: a four-character decimal header, space padded,
 followed by a body of at most 512 bytes.
 */
module ChatMessages {
  import opened Basics

  const HEADER_LENGTH := 4
  const MAX_BODY_LENGTH := 512

  // ---------------------------------------------------------------------------
  // The header
  // ---------------------------------------------------------------------------

  function Digit(d: nat): char
    requires d < 10
  {
    '0' + d as char
  }

  predicate IsDigit(c: char) {
    '0' <= c <= '9'
  }

  /** sprintf("%4d"). */
  function Header(n: nat): (h: string)
    requires n < 10000
    ensures |h| == HEADER_LENGTH
  {
    [ if n >= 1000 then Digit(n / 1000) else ' ',
      if n >= 100 then Digit(n / 100 % 10) else ' ',
      if n >= 10 then Digit(n / 10 % 10) else ' ',
      Digit(n % 10) ]
  }

  /** strncat into a zeroed buffer: the characters before the first NUL. */
  function CString(s: string): string {
    if s == [] || s[0] == '\0' then [] else [s[0]] + CString(s[1..])
  }

  predicate IsSpace(c: char) {
    c == ' ' || (9 as char) <= c <= (13 as char)
  }

  function SkipSpace(s: string): string {
    if s != [] && IsSpace(s[0]) then SkipSpace(s[1..]) else s
  }

  function Digits(s: string, acc: nat): nat
    decreases |s|
  {
    if s != [] && IsDigit(s[0]) then Digits(s[1..], 10 * acc + (s[0] - '0') as nat) else acc
  }

  /** atoi: white space, an optional sign, digits; anything else ends the number. */
  function Atoi(s: string): int {
    var t := SkipSpace(s);
    if t != [] && t[0] == '-' then -(Digits(t[1..], 0) as int)
    else if t != [] && t[0] == '+' then Digits(t[1..], 0)
    else Digits(t, 0)
  }

  /** decode_header: a negative number becomes a huge size_t, which is too long as well. */
  function Decode(header: string): (r: Option<nat>)
    ensures r.Some? ==> r.value <= 512
  {
    var n := Atoi(CString(header));
    if 0 <= n <= MAX_BODY_LENGTH then Some(n) else None
  }

  lemma {:induction false} NoNul(s: string)
    requires '\0' !in s
    ensures CString(s) == s
  {
    if s != [] {
      NoNul(s[1..]);
      assert s == [s[0]] + s[1..];
    }
  }

  lemma DigitValue(d: nat)
    requires d < 10
    ensures IsDigit(Digit(d)) && (Digit(d) - '0') as nat == d && !IsSpace(Digit(d))
    ensures Digit(d) != '-' && Digit(d) != '+' && Digit(d) != '\0'
  {
  }

  /** The digits that follow the padding are read back one by one. */
  lemma ReadDigit(s: string, acc: nat, d: nat)
    requires s != [] && d < 10 && s[0] == Digit(d)
    ensures Digits(s, acc) == Digits(s[1..], 10 * acc + d)
  {
    DigitValue(d);
  }

  lemma OneDigit(a: nat, acc: nat)
    requires a < 10
    ensures Digits([Digit(a)], acc) == 10 * acc + a
  {
    ReadDigit([Digit(a)], acc, a);
    assert [Digit(a)][1..] == [];
  }

  lemma TwoDigits(a: nat, b: nat, acc: nat)
    requires a < 10 && b < 10
    ensures Digits([Digit(a), Digit(b)], acc) == 10 * (10 * acc + a) + b
  {
    hide Digit;
    ReadDigit([Digit(a), Digit(b)], acc, a);
    assert [Digit(a), Digit(b)][1..] == [Digit(b)];
    OneDigit(b, 10 * acc + a);
  }

  lemma Decimal(n: nat)
    requires n < 1000
    ensures n == 100 * (n / 100 % 10) + 10 * (n / 10 % 10) + n % 10
    ensures n < 100 ==> n / 100 % 10 == 0
    ensures n < 10 ==> n / 10 % 10 == 0
  {
    assert n / 100 == n / 10 / 10;
  }

  /** What a header looks like behind its padding. */
  lemma HeaderTail(n: nat)
    requires n < 1000
    ensures var h := Header(n);
      && h[3..] == [Digit(n % 10)]
      && (n >= 10 ==> h[2..] == [Digit(n / 10 % 10), Digit(n % 10)])
      && (n >= 100 ==> h[1..] == [Digit(n / 100 % 10)] + [Digit(n / 10 % 10), Digit(n % 10)])
  {
    hide Digit;
  }

  /** The digits behind the padding of a header. */
  lemma HeaderDigits(n: nat)
    requires n <= MAX_BODY_LENGTH
    ensures var h := Header(n);
      Digits(if n >= 100 then h[1..] else if n >= 10 then h[2..] else h[3..], 0) == n
  {
    HeaderTail(n);
    Decimal(n);
    var h, a, b, c := Header(n), n / 100 % 10, n / 10 % 10, n % 10;
    hide Digits, Digit, Header;
    if n >= 100 {
      ReadDigit(h[1..], 0, a);
      assert h[1..][1..] == [Digit(b), Digit(c)];
      TwoDigits(b, c, a);
    } else if n >= 10 {
      TwoDigits(b, c, 0);
    } else {
      OneDigit(c, 0);
    }
  }

  lemma SkipOne(s: string)
    requires s != [] && s[0] == ' '
    ensures SkipSpace(s) == SkipSpace(s[1..])
  {
  }

  lemma SkipNone(s: string, d: nat)
    requires s != [] && d < 10 && s[0] == Digit(d)
    ensures SkipSpace(s) == s
  {
    DigitValue(d);
  }

  /** The padding of a header is skipped. */
  lemma HeaderPadding(n: nat)
    requires n <= MAX_BODY_LENGTH
    ensures var h := Header(n);
      SkipSpace(h) == if n >= 100 then h[1..] else if n >= 10 then h[2..] else h[3..]
  {
    var h := Header(n);
    assert h[1..][1..] == h[2..] && h[2..][1..] == h[3..];
    hide SkipSpace;
    SkipOne(h);
    if n >= 100 {
      SkipNone(h[1..], n / 100 % 10);
    } else {
      SkipOne(h[1..]);
      if n >= 10 {
        SkipNone(h[2..], n / 10 % 10);
      } else {
        SkipOne(h[2..]);
        SkipNone(h[3..], n % 10);
      }
    }
  }

  /** Every body length survives its header. */
  lemma HeaderRoundTrip(n: nat)
    requires n <= MAX_BODY_LENGTH
    ensures Decode(Header(n)) == Some(n)
  {
    var h := Header(n);
    DigitValue(n / 100 % 10);
    DigitValue(n / 10 % 10);
    DigitValue(n % 10);
    hide SkipSpace, Digits, CString;
    NoNul(h);
    HeaderPadding(n);
    HeaderDigits(n);
  }

  // ---------------------------------------------------------------------------
  // Arbitrary headers
  // ---------------------------------------------------------------------------

  /** The decimal numeral of a number. */
  function Numeral(n: nat): (s: string)
    ensures s != []
  {
    if n < 10 then [Digit(n)] else Numeral(n / 10) + [Digit(n % 10)]
  }

  function Spaces(n: nat): string {
    seq(n, _ => ' ')
  }

  /** A header is the numeral of the length, right-aligned in four characters. */
  lemma HeaderIsNumeral(n: nat)
    requires n < 10000
    ensures |Numeral(n)| <= 4 && Header(n) == Spaces(4 - |Numeral(n)|) + Numeral(n)
  {
    hide Digit;
    assert n / 10 / 10 == n / 100 && n / 100 / 10 == n / 1000;
    if n >= 10 {
      assert Numeral(n) == Numeral(n / 10) + [Digit(n % 10)];
    }
    if n >= 100 {
      assert Numeral(n / 10) == Numeral(n / 100) + [Digit(n / 10 % 10)];
    }
    if n >= 1000 {
      assert Numeral(n / 100) == Numeral(n / 1000) + [Digit(n / 100 % 10)];
    }
  }

  predicate AllDigits(s: string) {
    forall i :: 0 <= i < |s| ==> IsDigit(s[i])
  }

  predicate AllSpace(s: string) {
    forall i :: 0 <= i < |s| ==> IsSpace(s[i])
  }

  /** The number a string of digits stands for. */
  function NumberOf(d: string): nat
    requires AllDigits(d)
  {
    if d == [] then 0 else 10 * NumberOf(d[..|d| - 1]) + (d[|d| - 1] - '0') as nat
  }

  /** The parts of a string that atoi tells apart: white space, a sign, digits, and a rest that it ignores. */
  predicate Parts(w: string, sign: string, d: string, rest: string) {
    && AllSpace(w) && AllDigits(d) && (sign == "" || sign == "-" || sign == "+")
    && (rest == [] || !IsDigit(rest[0]))
    && (sign == "" && d == "" && rest != [] ==> !IsSpace(rest[0]) && rest[0] != '-' && rest[0] != '+')
  }

  lemma {:induction false} DigitsRead(p: string, d: string, rest: string)
    requires AllDigits(p) && AllDigits(d) && (rest == [] || !IsDigit(rest[0]))
    ensures AllDigits(p + d) && Digits(d + rest, NumberOf(p)) == NumberOf(p + d)
    decreases |d|
  {
    if d == [] {
      assert d + rest == rest && p + d == p;
    } else {
      var p' := p + [d[0]];
      assert p'[..|p|] == p && NumberOf(p') == 10 * NumberOf(p) + (d[0] - '0') as nat;
      assert (d + rest)[1..] == d[1..] + rest && p' + d[1..] == p + d;
      DigitsRead(p', d[1..], rest);
    }
  }

  lemma {:induction false} SpaceSkipped(w: string, s: string)
    requires AllSpace(w) && (s == [] || !IsSpace(s[0]))
    ensures SkipSpace(w + s) == s
  {
    if w == [] {
      assert w + s == s;
    } else {
      assert (w + s)[1..] == w[1..] + s;
      SpaceSkipped(w[1..], s);
    }
  }

  lemma Regroup(w: string, sign: string, d: string, rest: string)
    ensures w + sign + d + rest == w + (sign + (d + rest))
  {
    assert sign + (d + rest) == sign + d + rest;
  }

  /** What follows the white space decides about the sign. */
  lemma SignRead(s: string, sign: string, u: string)
    requires SkipSpace(s) == sign + u && (sign == "" || sign == "-" || sign == "+")
    requires sign == "" ==> u == [] || (u[0] != '-' && u[0] != '+')
    ensures Atoi(s) == if sign == "-" then -(Digits(u, 0) as int) else Digits(u, 0)
  {
    var t := sign + u;
    hide SkipSpace, Digits;
    if sign == "" {
      assert t == u;
    } else {
      assert t[0] == sign[0] && t[1..] == u;
    }
  }

  /** Where the digits, or what stands in their place, begin. */
  lemma HeadOfDigits(w: string, sign: string, d: string, rest: string)
    requires Parts(w, sign, d, rest)
    ensures var u := d + rest;
      && (sign == "" ==> u == [] || (!IsSpace(u[0]) && u[0] != '-' && u[0] != '+'))
      && (sign + u == [] || !IsSpace((sign + u)[0]))
  {
    var u := d + rest;
    if d == [] {
      assert u == rest;
    } else {
      assert u[0] == d[0] && IsDigit(d[0]);
    }
    if sign == "" {
      assert sign + u == u;
    } else {
      assert (sign + u)[0] == sign[0];
    }
  }

  /** atoi yields the number that the digits stand for, negated after a minus sign. */
  lemma AtoiReads(w: string, sign: string, d: string, rest: string)
    requires Parts(w, sign, d, rest)
    ensures Atoi(w + sign + d + rest) == if sign == "-" then -(NumberOf(d) as int) else NumberOf(d)
  {
    assert NumberOf([]) == 0 && [] + d == d;
    hide Digits, SkipSpace, NumberOf, Atoi, IsSpace;
    var u := d + rest;
    Regroup(w, sign, d, rest);
    HeadOfDigits(w, sign, d, rest);
    SpaceSkipped(w, sign + u);
    SignRead(w + (sign + u), sign, u);
    DigitsRead([], d, rest);
  }

  /** decode_header reads the number before the first NUL, and refuses it exactly when it is negative or above 512. */
  lemma DecodeExactly(w: string, sign: string, d: string, rest: string, tail: string)
    requires Parts(w, sign, d, rest) && '\0' !in rest && (tail == [] || tail[0] == '\0')
    ensures Decode(w + sign + d + rest + tail) ==
      if NumberOf(d) > 512 || (sign == "-" && NumberOf(d) > 0) then None else Some(NumberOf(d))
  {
    var s := w + sign + d + rest;
    assert '\0' !in s by {
      assert forall i :: 0 <= i < |w| ==> IsSpace(w[i]);
      assert forall i :: 0 <= i < |d| ==> IsDigit(d[i]);
    }
    CutAtNul(s, tail);
    AtoiReads(w, sign, d, rest);
    hide Atoi, CString, NumberOf, Parts;
  }

  lemma {:induction false} CutAtNul(s: string, tail: string)
    requires '\0' !in s && (tail == [] || tail[0] == '\0')
    ensures CString(s + tail) == s
  {
    if s == [] {
      assert s + tail == tail;
    } else {
      assert s[0] in s && (s + tail)[1..] == s[1..] + tail;
      CutAtNul(s[1..], tail);
    }
  }

  /** Every header has these parts. */
  lemma EveryHeaderHasParts(header: string) returns (w: string, sign: string, d: string, rest: string, tail: string)
    ensures header == w + sign + d + rest + tail
    ensures Parts(w, sign, d, rest) && '\0' !in rest && (tail == [] || tail[0] == '\0')
  {
    hide IsSpace, IsDigit;
    var s, t;
    s, tail := SplitAtNul(header);
    w, t := SplitSpace(s);
    sign := if t != [] && (t[0] == '-' || t[0] == '+') then [t[0]] else "";
    var u := t[|sign|..];
    d, rest := SplitDigits(u);
    assert t == sign + u;
    Regroup(w, sign, d, rest);
    NulIn(w + sign + d, rest);
  }

  lemma NulIn(a: string, b: string)
    ensures '\0' in b ==> '\0' in a + b
  {
    if '\0' in b {
      var i :| 0 <= i < |b| && b[i] == '\0';
      assert (a + b)[|a| + i] == '\0';
    }
  }

  lemma {:induction false} SplitAtNul(s: string) returns (a: string, b: string)
    ensures s == a + b && '\0' !in a && (b == [] || b[0] == '\0')
  {
    if s == [] || s[0] == '\0' {
      a, b := [], s;
    } else {
      var a';
      a', b := SplitAtNul(s[1..]);
      a := [s[0]] + a';
    }
  }

  lemma {:induction false} SplitSpace(s: string) returns (a: string, b: string)
    ensures s == a + b && AllSpace(a) && (b == [] || !IsSpace(b[0]))
  {
    if s == [] || !IsSpace(s[0]) {
      a, b := [], s;
    } else {
      var a';
      a', b := SplitSpace(s[1..]);
      a := [s[0]] + a';
    }
  }

  lemma {:induction false} SplitDigits(s: string) returns (a: string, b: string)
    ensures s == a + b && AllDigits(a) && (b == [] || !IsDigit(b[0]))
  {
    if s == [] || !IsDigit(s[0]) {
      a, b := [], s;
    } else {
      var a';
      a', b := SplitDigits(s[1..]);
      a := [s[0]] + a';
    }
  }

  /** The message object: header and body share one buffer. */
  class ChatMessage {
    const data: array<char>
    var bodyLength: nat

    ghost predicate Valid()
      reads this
    {
      data.Length == HEADER_LENGTH + MAX_BODY_LENGTH && bodyLength <= MAX_BODY_LENGTH
    }

    constructor ()
      ensures Valid() && bodyLength == 0 && fresh(data)
    {
      data := new char[HEADER_LENGTH + MAX_BODY_LENGTH];
      bodyLength := 0;
    }

    method SetBodyLength(newLength: nat)
      requires Valid()
      modifies this
      ensures Valid() && bodyLength == if newLength <= MAX_BODY_LENGTH then newLength else MAX_BODY_LENGTH
    {
      bodyLength := newLength;
      if bodyLength > MAX_BODY_LENGTH {
        bodyLength := MAX_BODY_LENGTH;
      }
    }

    method EncodeHeader()
      requires Valid()
      modifies data
      ensures data[..HEADER_LENGTH] == Header(bodyLength)
      ensures data[HEADER_LENGTH..] == old(data[HEADER_LENGTH..])
    {
      var header := Header(bodyLength);
      for i := 0 to HEADER_LENGTH
        invariant data[..i] == header[..i] && data[HEADER_LENGTH..] == old(data[HEADER_LENGTH..])
      {
        data[i] := header[i];
        assert data[..i + 1] == data[..i] + [data[i]];
      }
    }

    method DecodeHeader() returns (ok: bool)
      requires data.Length == HEADER_LENGTH + MAX_BODY_LENGTH
      modifies this
      ensures Valid()
      ensures ok <==> Decode(data[..HEADER_LENGTH]).Some?
      ensures bodyLength == if ok then Decode(data[..HEADER_LENGTH]).value else 0
    {
      var n := Atoi(CString(data[..HEADER_LENGTH]));
      ok := 0 <= n <= MAX_BODY_LENGTH;
      bodyLength := if ok then n else 0;
    }
  }

  // ---------------------------------------------------------------------------
  // Streams of messages
  // ---------------------------------------------------------------------------

  predicate Bodies(msgs: seq<string>) {
    forall i :: 0 <= i < |msgs| ==> |msgs[i]| <= MAX_BODY_LENGTH
  }

  /** What the senders write. */
  function Encoded(msgs: seq<string>): string
    requires Bodies(msgs)
  {
    if msgs == [] then "" else Header(|msgs[0]|) + msgs[0] + Encoded(msgs[1..])
  }

  /** The header/body read loop: it ends when the stream ends or a header is refused. */
  function ReadLoop(stream: string): (msgs: seq<string>)
    ensures Bodies(msgs)
    decreases |stream|
  {
    if |stream| < HEADER_LENGTH then [] else
      match Decode(stream[..HEADER_LENGTH])
      case None => []
      case Some(n) =>
        if |stream| < HEADER_LENGTH + n then [] else
          [stream[HEADER_LENGTH..HEADER_LENGTH + n]] + ReadLoop(stream[HEADER_LENGTH + n..])
  }

  lemma Slices(a: string, b: string, c: string)
    ensures (a + b + c)[..|a|] == a && (a + b + c)[|a|..|a| + |b|] == b && (a + b + c)[|a| + |b|..] == c
  {
  }

  /** One message is read off the front of the stream. */
  lemma ReadOne(body: string, rest: string)
    requires |body| <= MAX_BODY_LENGTH
    ensures ReadLoop(Header(|body|) + body + rest) == [body] + ReadLoop(rest)
  {
    HeaderRoundTrip(|body|);
    hide Decode, Header;
    Slices(Header(|body|), body, rest);
  }

  /** Reading the concatenated encodings yields the messages, whatever follows them. */
  lemma {:induction false} FramingRoundTrip(msgs: seq<string>, tail: string)
    requires Bodies(msgs)
    ensures ReadLoop(Encoded(msgs) + tail) == msgs + ReadLoop(tail)
  {
    hide ReadLoop, Header;
    if msgs == [] {
      assert "" + tail == tail;
      assert [] + ReadLoop(tail) == ReadLoop(tail);
    } else {
      FramingRoundTrip(msgs[1..], tail);
      ReadOne(msgs[0], Encoded(msgs[1..]) + tail);
      assert Encoded(msgs) + tail == Header(|msgs[0]|) + msgs[0] + (Encoded(msgs[1..]) + tail);
      assert msgs + ReadLoop(tail) == [msgs[0]] + (msgs[1..] + ReadLoop(tail));
    }
  }

  /** Exactly the messages that were sent are read. */
  lemma FramingIsExact(msgs: seq<string>)
    requires Bodies(msgs)
    ensures ReadLoop(Encoded(msgs)) == msgs
  {
    FramingRoundTrip(msgs, "");
    assert Encoded(msgs) + "" == Encoded(msgs);
    assert msgs + [] == msgs;
  }

  /** What the read loop has consumed: headers, each with the body whose length it announces. */
  function Frames(headers: seq<string>, bodies: seq<string>): string
    requires |headers| == |bodies|
  {
    if headers == [] then "" else headers[0] + bodies[0] + Frames(headers[1..], bodies[1..])
  }

  /** The loop can go no further: the stream has ended, or the header is refused. */
  predicate Ended(rest: string) {
    || |rest| < 4
    || Decode(rest[..4]).None?
    || |rest| < 4 + Decode(rest[..4]).value
  }

  lemma FramesCons(header: string, headers: seq<string>, body: string, bodies: seq<string>)
    requires |headers| == |bodies|
    ensures Frames([header] + headers, [body] + bodies) == header + body + Frames(headers, bodies)
  {
    assert ([header] + headers)[1..] == headers && ([body] + bodies)[1..] == bodies;
  }

  /** One round of the read loop. */
  lemma ReadLoopRound(stream: string)
    ensures if Ended(stream) then ReadLoop(stream) == [] else
      var n := Decode(stream[..4]).value;
      ReadLoop(stream) == [stream[4..4 + n]] + ReadLoop(stream[4 + n..])
  {
    hide Decode;
  }

  lemma Cut(stream: string, n: nat)
    requires |stream| >= 4 + n
    ensures stream == stream[..4] + stream[4..4 + n] + stream[4 + n..] && |stream[4..4 + n]| == n
  {
  }

  /** Each header announces the length of its body. */
  ghost predicate Announced(headers: seq<string>, bodies: seq<string>) {
    |headers| == |bodies| && forall i :: 0 <= i < |headers| ==> |headers[i]| == 4 && Decode(headers[i]) == Some(|bodies[i]|)
  }

  lemma AnnouncedCons(header: string, headers: seq<string>, body: string, bodies: seq<string>)
    requires Announced(headers, bodies) && |header| == 4 && Decode(header) == Some(|body|)
    ensures Announced([header] + headers, [body] + bodies)
  {
    hide Decode;
  }

  lemma Glue(header: string, body: string, frames: string, rest: string)
    ensures header + body + (frames + rest) == header + body + frames + rest
  {
  }

  /** From any stream the read loop yields the bodies of all its frames up to the first header that is refused or incomplete. */
  lemma {:induction false} ReadLoopStopsLate(stream: string) returns (headers: seq<string>, rest: string)
    ensures Announced(headers, ReadLoop(stream)) && stream == Frames(headers, ReadLoop(stream)) + rest && Ended(rest)
    decreases |stream|
  {
    ReadLoopRound(stream);
    if Ended(stream) {
      headers, rest := [], stream;
      assert "" + stream == stream;
    } else {
      var header := stream[..4];
      var n := Decode(header).value;
      hide Decode, ReadLoop, Ended, Announced, Frames;
      var body, after := stream[4..4 + n], stream[4 + n..];
      Cut(stream, n);
      var headers';
      headers', rest := ReadLoopStopsLate(after);
      headers := [header] + headers';
      AnnouncedIsLong(headers', ReadLoop(after));
      AnnouncedCons(header, headers', body, ReadLoop(after));
      FramesCons(header, headers', body, ReadLoop(after));
      Glue(header, body, Frames(headers', ReadLoop(after)), rest);
    }
  }

  lemma AnnouncedIsLong(headers: seq<string>, bodies: seq<string>)
    requires Announced(headers, bodies)
    ensures |headers| == |bodies|
  {
  }
}
