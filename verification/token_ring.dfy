/**
 The actor token ring: a tiny actor framework with handler registration, ring
 members that pass tokens on, a receiver, and the main thread that sets the ring
 up and waits. Mailboxes are FIFO; any interleaving of mailboxes and the main
 thread is a run.
 */
module TokenRing {

  // ---------------------------------------------------------------------------
  // Handler lists
  // ---------------------------------------------------------------------------

  datatype Handler = InitHandler | TokenHandler

  /** The first position of the handler, or the length. */
  function FirstIndex(hs: seq<Handler>, h: Handler): (i: nat)
    ensures i <= |hs| && h !in hs[..i] && (i < |hs| ==> hs[i] == h)
  {
    if hs == [] || hs[0] == h then 0 else 1 + FirstIndex(hs[1..], h)
  }

  /** deregister_handler removes the first matching handler, if any. */
  function Deregistered(hs: seq<Handler>, h: Handler): seq<Handler> {
    var i := FirstIndex(hs, h);
    if i < |hs| then hs[..i] + hs[i + 1..] else hs
  }

  /** Without its first `h`, if there is one; the other handlers keep their places and their order. */
  ghost predicate RemovedFirst(hs: seq<Handler>, h: Handler, hs': seq<Handler>) {
    if h !in hs then hs' == hs else exists i :: 0 <= i < |hs| && hs[i] == h && h !in hs[..i] && hs' == hs[..i] + hs[i + 1..]
  }

  lemma DeregisterRemovesFirst(hs: seq<Handler>, h: Handler)
    ensures RemovedFirst(hs, h, Deregistered(hs, h))
  {
    var i := FirstIndex(hs, h);
    if i < |hs| {
      assert hs[i] == h && h !in hs[..i];
    } else {
      assert hs[..i] == hs;
    }
  }

  class HandlerList {
    var handlers: seq<Handler>

    constructor ()
      ensures handlers == []
    {
      handlers := [];
    }

    method Register(h: Handler)
      modifies this
      ensures handlers == old(handlers) + [h]
    {
      handlers := handlers + [h];
    }

    method Deregister(h: Handler)
      modifies this
      ensures handlers == Deregistered(old(handlers), h)
      ensures RemovedFirst(old(handlers), h, handlers)
    {
      DeregisterRemovesFirst(handlers, h);
      var i := 0;
      while i != |handlers|
        invariant i <= |handlers| && handlers == old(handlers) && h !in handlers[..i]
      {
        if handlers[i] == h {
          assert FirstIndex(handlers, h) == i;
          handlers := handlers[..i] + handlers[i + 1..];
          return;
        }
        i := i + 1;
      }
    }
  }

  // ---------------------------------------------------------------------------
  // The ring
  // ---------------------------------------------------------------------------

  datatype Address = Member(index: nat) | Receiver

  /** `origin` names the token: the member the main thread gave it to. */
  datatype Message =
    | Init(next: Address, from: Address)
    | Token(value: int, origin: nat, from: Address)

  datatype Actor = Actor(handlers: seq<Handler>, next: Address, caller: Address)

  datatype Ring = Ring(
    members: seq<Actor>,
    boxes: seq<seq<Message>>,     // the members' mailboxes
    strand: seq<Message>,         // the receiver's mailbox
    queue: seq<Message>,          // the receiver's message_queue_
    i: nat, nextI: nat,           // variables of the set-up loop
    sent: nat,                    // tokens the main thread has sent
    waited: seq<Message>          // what wait() has returned
  )

  /** init_handler. */
  function HandleInit(a: Actor, next: Address, from: Address): Actor {
    Actor(Deregistered(a.handlers + [TokenHandler], InitHandler), next, from)
  }

  datatype Post = Post(to: Address, msg: Message)

  /** token_handler: pass the token on, or report to the caller when it has reached zero. */
  function HandleToken(a: Actor, self: nat, value: int, origin: nat): Post {
    if value > 0 then Post(a.next, Token(value - 1, origin, Member(self)))
    else Post(a.caller, Token(value, origin, Member(self)))
  }

  /** call_handler over the handlers `hs` that were registered when the message was taken. */
  function CallHandlers(a: Actor, self: nat, msg: Message, hs: seq<Handler>): (Actor, seq<Post>)
    decreases |hs|
  {
    if hs == [] then (a, []) else
      match msg
      case Init(next, from) =>
        CallHandlers(if hs[0] == InitHandler then HandleInit(a, next, from) else a, self, msg, hs[1..])
      case Token(value, origin, _) =>
        var (a', posts) := CallHandlers(a, self, msg, hs[1..]);
        (a', (if hs[0] == TokenHandler then [HandleToken(a, self, value, origin)] else []) + posts)
  }

  /** A post lands at the end of the mailbox of its addressee. */
  function Delivered(r: Ring, p: Post): Ring {
    match p.to
    case Receiver => r.(strand := r.strand + [p.msg])
    case Member(m) => if m < |r.boxes| then r.(boxes := r.boxes[m := r.boxes[m] + [p.msg]]) else r
  }

  function DeliveredAll(r: Ring, ps: seq<Post>): Ring
    decreases |ps|
  {
    if ps == [] then r else DeliveredAll(Delivered(r, ps[0]), ps[1..])
  }

  datatype Step = SendInit | SendToken | Take(m: nat) | Receive | WaitReturns

  predicate Enabled(r: Ring, s: Step) {
    match s
    case SendInit => 0 < r.i <= |r.boxes| && r.nextI < |r.boxes|
    case SendToken => r.i == 0 && r.sent < |r.boxes|
    case Take(m) => m < |r.boxes| && m < |r.members| && r.boxes[m] != []
    case Receive => r.strand != []
    case WaitReturns => r.i == 0 && r.sent == |r.boxes| && |r.waited| < |r.boxes| && r.queue != []
  }

  /** `v` is the initial value of every token. */
  function Apply(r: Ring, s: Step, v: nat): Ring
    requires Enabled(r, s)
  {
    match s
    case SendInit =>
      Delivered(r, Post(Member(r.i - 1), Init(Member(r.nextI), Receiver))).(i := r.i - 1, nextI := r.i - 1)
    case SendToken =>
      Delivered(r, Post(Member(r.sent), Token(v, r.sent, Receiver))).(sent := r.sent + 1)
    case Take(m) =>
      var msg := r.boxes[m][0];
      var (a, posts) := CallHandlers(r.members[m], m, msg, r.members[m].handlers);
      DeliveredAll(r.(boxes := r.boxes[m := r.boxes[m][1..]], members := r.members[m := a]), posts)
    case Receive => r.(strand := r.strand[1..], queue := r.queue + [r.strand[0]])
    case WaitReturns => r.(queue := r.queue[1..], waited := r.waited + [r.queue[0]])
  }

  function Initial(n: nat): Ring {
    Ring(seq(n, _ => Actor([InitHandler], Receiver, Receiver)), seq(n, _ => []), [], [], n, 0, 0, [])
  }

  ghost predicate IsRun(rings: seq<Ring>, steps: seq<Step>, n: nat, v: nat) {
    && |rings| == |steps| + 1 && n > 0
    && rings[0] == Initial(n)
    && forall k :: 0 <= k < |steps| ==> Enabled(rings[k], steps[k]) && rings[k + 1] == Apply(rings[k], steps[k], v)
  }

  // ---------------------------------------------------------------------------
  // Invariant
  // ---------------------------------------------------------------------------

  /** The token has made `v - value` hops from its origin and stands at member `m`. */
  predicate TokenAt(msg: Message, m: nat, n: nat, v: nat)
    requires n > 0
  {
    msg.Token? && 0 <= msg.value <= v && msg.origin < n && (msg.origin + (v - msg.value)) % n == m
  }

  ghost predicate TokensAt(box: seq<Message>, m: nat, n: nat, v: nat)
    requires n > 0
  {
    forall k :: 0 <= k < |box| ==> TokenAt(box[k], m, n, v)
  }

  /** A member is waiting for its init, has it first in its mailbox, or has been initialised. */
  ghost predicate MemberOk(a: Actor, box: seq<Message>, m: nat, n: nat, v: nat, i: nat)
    requires n > 0
  {
    if a.handlers == [TokenHandler] then
      m >= i && a.next == Member((m + 1) % n) && a.caller == Receiver && TokensAt(box, m, n, v)
    else
      && a.handlers == [InitHandler]
      && if m < i then box == [] else
           box != [] && box[0] == Init(Member((m + 1) % n), Receiver) && TokensAt(box[1..], m, n, v)
  }

  /** A token that has reached the receiver: zero, sent by the member its hops lead to. */
  predicate Arrived(msg: Message, n: nat, v: nat)
    requires n > 0
  {
    msg.Token? && msg.value == 0 && msg.origin < n && msg.from == Member((msg.origin + v) % n)
  }

  ghost predicate AllArrived(msgs: seq<Message>, n: nat, v: nat)
    requires n > 0
  {
    forall k :: 0 <= k < |msgs| ==> Arrived(msgs[k], n, v)
  }

  /** The tokens among the messages, by origin. */
  function Origins(box: seq<Message>): seq<nat> {
    if box == [] then [] else (if box[0].Token? then [box[0].origin] else []) + Origins(box[1..])
  }

  function OriginsIn(boxes: seq<seq<Message>>): seq<nat> {
    if boxes == [] then [] else Origins(boxes[0]) + OriginsIn(boxes[1..])
  }

  function UpTo(k: nat): seq<nat> {
    seq(k, j => j)
  }

  /** Tokens in flight plus tokens received are the tokens sent, one by one. */
  ghost predicate Conserved(r: Ring) {
    multiset(OriginsIn(r.boxes)) + multiset(Origins(r.strand)) + multiset(Origins(r.queue)) + multiset(Origins(r.waited))
    == multiset(UpTo(r.sent))
  }

  ghost predicate Phases(r: Ring, n: nat)
    requires n > 0
  {
    && r.i <= n && r.nextI == r.i % n && r.sent <= n && (r.i > 0 ==> r.sent == 0)
    && (r.i > 0 ==> forall m :: 0 <= m < |r.boxes| ==> Origins(r.boxes[m]) == [])
    && (r.sent < n ==> r.waited == [])
  }

  ghost predicate MembersOk(r: Ring, n: nat, v: nat)
    requires n > 0
  {
    |r.members| == |r.boxes| == n && forall m :: 0 <= m < n ==> MemberOk(r.members[m], r.boxes[m], m, n, v, r.i)
  }

  ghost predicate Inv(r: Ring, n: nat, v: nat)
    requires n > 0
  {
    && Phases(r, n)
    && MembersOk(r, n, v)
    && AllArrived(r.strand, n, v) && AllArrived(r.queue, n, v) && AllArrived(r.waited, n, v)
    && Conserved(r)
  }

  lemma {:induction false} OriginsConcat(a: seq<Message>, b: seq<Message>)
    ensures Origins(a + b) == Origins(a) + Origins(b)
  {
    if a == [] {
      assert a + b == b;
    } else {
      OriginsConcat(a[1..], b);
      assert (a + b)[1..] == a[1..] + b;
      var first := if a[0].Token? then [a[0].origin] else [];
      assert first + (Origins(a[1..]) + Origins(b)) == first + Origins(a[1..]) + Origins(b);
    }
  }

  lemma OriginsPush(a: seq<Message>, msg: Message)
    ensures Origins(a + [msg]) == if msg.Token? then Origins(a) + [msg.origin] else Origins(a)
  {
    OriginsConcat(a, [msg]);
    assert Origins([msg]) == if msg.Token? then [msg.origin] else [];
  }

  lemma {:induction false} OriginsSplit(boxes: seq<seq<Message>>, m: nat)
    requires m < |boxes|
    ensures OriginsIn(boxes) == OriginsIn(boxes[..m]) + Origins(boxes[m]) + OriginsIn(boxes[m + 1..])
  {
    hide Origins;
    if m > 0 {
      OriginsSplit(boxes[1..], m - 1);
      assert boxes[1..][..m - 1] == boxes[..m][1..];
      assert boxes[1..][m..] == boxes[m + 1..];
    }
  }

  /** Posting a message to a mailbox adds its token to those in flight. */
  lemma PushInFlight(boxes: seq<seq<Message>>, m: nat, msg: Message)
    requires m < |boxes|
    ensures multiset(OriginsIn(boxes[m := boxes[m] + [msg]])) ==
            multiset(OriginsIn(boxes)) + if msg.Token? then multiset{msg.origin} else multiset{}
  {
    hide Origins, OriginsIn;
    var boxes' := boxes[m := boxes[m] + [msg]];
    OriginsSplit(boxes, m);
    OriginsSplit(boxes', m);
    assert boxes'[..m] == boxes[..m] && boxes'[m + 1..] == boxes[m + 1..];
    OriginsPush(boxes[m], msg);
  }

  /** Taking the first message removes its token from those in flight. */
  lemma TakeFromFlight(boxes: seq<seq<Message>>, m: nat)
    requires m < |boxes| && boxes[m] != []
    ensures multiset(OriginsIn(boxes)) ==
            multiset(OriginsIn(boxes[m := boxes[m][1..]])) + if boxes[m][0].Token? then multiset{boxes[m][0].origin} else multiset{}
  {
    assert Origins(boxes[m]) == (if boxes[m][0].Token? then [boxes[m][0].origin] else []) + Origins(boxes[m][1..]);
    hide Origins, OriginsIn;
    var boxes' := boxes[m := boxes[m][1..]];
    OriginsSplit(boxes, m);
    OriginsSplit(boxes', m);
    assert boxes'[..m] == boxes[..m] && boxes'[m + 1..] == boxes[m + 1..];
  }

  lemma {:induction false} NothingInFlight(boxes: seq<seq<Message>>)
    requires forall m :: 0 <= m < |boxes| ==> boxes[m] == []
    ensures OriginsIn(boxes) == []
  {
    if boxes != [] {
      NothingInFlight(boxes[1..]);
    }
  }

  lemma MulBounds(d: int, n: nat)
    ensures d >= 1 ==> d * n >= n
    ensures d <= -1 ==> d * n <= -(n as int)
  {
  }

  lemma ModUnique(x: nat, q: nat, m: nat, n: nat)
    requires m < n && x == q * n + m
    ensures x % n == m
  {
    var d := x / n - q;
    MulBounds(d, n);
    assert d * n == m - x % n;
  }

  /** One more hop. */
  lemma NextMember(hops: nat, n: nat)
    requires n > 0
    ensures (hops + 1) % n == (hops % n + 1) % n
  {
    var q, m := hops / n, hops % n;
    assert hops == q * n + m;
    if m + 1 == n {
      assert (q + 1) * n == q * n + n;
      ModUnique(hops + 1, q + 1, 0, n);
      ModUnique(m + 1, 1, 0, n);
    } else {
      ModUnique(hops + 1, q, m + 1, n);
      ModUnique(m + 1, 0, m + 1, n);
    }
  }

  // ---------------------------------------------------------------------------
  // Every step keeps the invariant
  // ---------------------------------------------------------------------------

  lemma CallInit(a: Actor, m: nat, next: Address, from: Address)
    requires a.handlers == [InitHandler]
    ensures CallHandlers(a, m, Init(next, from), a.handlers) == (Actor([TokenHandler], next, from), [])
  {
    var hs := a.handlers + [TokenHandler];
    assert hs[0] == InitHandler && FirstIndex(hs, InitHandler) == 0;
    assert Deregistered(hs, InitHandler) == hs[..0] + hs[1..] == [TokenHandler];
    assert a.handlers[1..] == [];
  }

  lemma CallToken(a: Actor, m: nat, msg: Message)
    requires a.handlers == [TokenHandler] && msg.Token?
    ensures CallHandlers(a, m, msg, a.handlers) == (a, [HandleToken(a, m, msg.value, msg.origin)])
  {
    assert a.handlers[1..] == [] && a.handlers[0] == TokenHandler;
    assert CallHandlers(a, m, msg, []) == (a, []);
    var p := HandleToken(a, m, msg.value, msg.origin);
    assert [p] + [] == [p];
  }

  lemma DeliverOne(r: Ring, p: Post)
    ensures DeliveredAll(r, [p]) == Delivered(r, p)
  {
    assert [p][1..] == [];
  }

  /** A new token goes behind whatever is in the mailbox. */
  lemma PushToken(a: Actor, box: seq<Message>, m: nat, n: nat, v: nat, msg: Message)
    requires n > 0 && MemberOk(a, box, m, n, v, 0) && TokenAt(msg, m, n, v)
    ensures MemberOk(a, box + [msg], m, n, v, 0)
  {
    if a.handlers != [TokenHandler] {
      assert (box + [msg])[1..] == box[1..] + [msg];
    }
  }

  lemma MembersPush(r: Ring, n: nat, v: nat, m: nat, msg: Message)
    requires n > 0 && MembersOk(r, n, v) && r.i == 0 && m < n && TokenAt(msg, m, n, v)
    ensures MembersOk(Delivered(r, Post(Member(m), msg)), n, v)
  {
    hide MemberOk, TokenAt;
    PushToken(r.members[m], r.boxes[m], m, n, v, msg);
  }

  lemma SmallMod(x: nat, n: nat)
    requires x < n
    ensures x % n == x
  {
  }

  lemma KeepSendInit(r: Ring, n: nat, v: nat)
    requires n > 0 && Inv(r, n, v) && Enabled(r, SendInit)
    ensures Inv(Apply(r, SendInit, v), n, v)
  {
    hide AllArrived, Conserved, TokensAt;
    var r' := Apply(r, SendInit, v);
    var m := r.i - 1;
    var msg := Init(Member(r.nextI), Receiver);
    SmallMod(m, n);
    assert r.boxes[m] == [] by { assert MemberOk(r.members[m], r.boxes[m], m, n, v, r.i); }
    assert r'.boxes[m] == [msg] && Origins([msg]) == [];
    forall k | 0 <= k < n
      ensures MemberOk(r'.members[k], r'.boxes[k], k, n, v, r'.i)
    {
      assert MemberOk(r.members[k], r.boxes[k], k, n, v, r.i);
      if k == m {
        assert TokensAt(r'.boxes[k][1..], k, n, v) by { EmptyTokens(r'.boxes[k][1..], k, n, v); }
      }
    }
    hide MemberOk;
    InitConserves(r, m, msg);
  }

  lemma EmptyTokens(box: seq<Message>, m: nat, n: nat, v: nat)
    requires n > 0 && box == []
    ensures TokensAt(box, m, n, v)
  {
  }

  /** The tokens in flight, in the strand, in the queue and waited for change together with those sent. */
  lemma Balance(a: multiset<nat>, b: multiset<nat>, c: multiset<nat>, d: multiset<nat>, t: multiset<nat>,
                a': multiset<nat>, b': multiset<nat>, c': multiset<nat>, d': multiset<nat>, t': multiset<nat>)
    requires a + b + c + d == t
    requires forall x :: a'[x] + b'[x] + c'[x] + d'[x] + t[x] == a[x] + b[x] + c[x] + d[x] + t'[x]
    ensures a' + b' + c' + d' == t'
  {
    forall x
      ensures (a' + b' + c' + d')[x] == t'[x]
    {
      assert (a + b + c + d)[x] == t[x];
    }
  }

  /** Conservation carries over to a ring whose tokens differ by what was sent. */
  lemma ConservedMove(r: Ring, r': Ring)
    requires Conserved(r)
    requires forall x: nat ::
      multiset(OriginsIn(r'.boxes))[x] + multiset(Origins(r'.strand))[x] + multiset(Origins(r'.queue))[x]
      + multiset(Origins(r'.waited))[x] + multiset(UpTo(r.sent))[x]
      == multiset(OriginsIn(r.boxes))[x] + multiset(Origins(r.strand))[x] + multiset(Origins(r.queue))[x]
      + multiset(Origins(r.waited))[x] + multiset(UpTo(r'.sent))[x]
    ensures Conserved(r')
  {
    hide OriginsIn, Origins, UpTo;
    Balance(multiset(OriginsIn(r.boxes)), multiset(Origins(r.strand)), multiset(Origins(r.queue)), multiset(Origins(r.waited)), multiset(UpTo(r.sent)),
            multiset(OriginsIn(r'.boxes)), multiset(Origins(r'.strand)), multiset(Origins(r'.queue)), multiset(Origins(r'.waited)), multiset(UpTo(r'.sent)));
  }

  lemma InitConserves(r: Ring, m: nat, msg: Message)
    requires m < |r.boxes| && msg.Init? && Conserved(r)
    ensures Conserved(Delivered(r, Post(Member(m), msg)).(i := m, nextI := m))
  {
    PushInFlight(r.boxes, m, msg);
    hide OriginsIn, Origins;
  }

  lemma KeepSendToken(r: Ring, n: nat, v: nat)
    requires n > 0 && Inv(r, n, v) && Enabled(r, SendToken)
    ensures Inv(Apply(r, SendToken, v), n, v)
  {
    hide AllArrived, Conserved, TokensAt, MemberOk, Origins, OriginsIn;
    var msg := Token(v, r.sent, Receiver);
    SmallMod(r.sent, n);
    MembersPush(r, n, v, r.sent, msg);
    SendConserves(r, msg);
  }

  lemma UpToNext(k: nat)
    ensures multiset(UpTo(k + 1)) == multiset(UpTo(k)) + multiset{k}
  {
    assert UpTo(k + 1) == UpTo(k) + [k];
  }

  lemma SendConserves(r: Ring, msg: Message)
    requires r.sent < |r.boxes| && msg.Token? && msg.origin == r.sent && Conserved(r)
    ensures Conserved(Delivered(r, Post(Member(r.sent), msg)).(sent := r.sent + 1))
  {
    hide OriginsIn, Origins, UpTo, Conserved;
    var r' := Delivered(r, Post(Member(r.sent), msg)).(sent := r.sent + 1);
    PushInFlight(r.boxes, r.sent, msg);
    UpToNext(r.sent);
    ConservedMove(r, r');
  }

  /** Member `m` is without its first message. */
  function Popped(r: Ring, m: nat): Ring
    requires m < |r.boxes| && r.boxes[m] != []
  {
    r.(boxes := r.boxes[m := r.boxes[m][1..]])
  }

  /** An init that is taken turns the member into a token handler. */
  lemma InitFindsHandler(r: Ring, n: nat, v: nat, m: nat)
    requires n > 0 && MembersOk(r, n, v) && Enabled(r, Take(m)) && r.boxes[m][0].Init?
    ensures var msg := r.boxes[m][0];
      var a := Actor([TokenHandler], msg.next, msg.from);
      && Apply(r, Take(m), v) == Popped(r, m).(members := r.members[m := a])
      && MemberOk(a, r.boxes[m][1..], m, n, v, r.i)
  {
    assert MemberOk(r.members[m], r.boxes[m], m, n, v, r.i);
    assert !TokenAt(r.boxes[m][0], m, n, v);
    var msg := r.boxes[m][0];
    CallInit(r.members[m], m, msg.next, msg.from);
  }

  lemma TakeInitConserves(r: Ring, m: nat, members: seq<Actor>)
    requires Conserved(r) && m < |r.boxes| && r.boxes[m] != [] && r.boxes[m][0].Init?
    ensures Conserved(Popped(r, m).(members := members))
    ensures Origins(r.boxes[m]) == Origins(r.boxes[m][1..])
  {
    TakeFromFlight(r.boxes, m);
    hide OriginsIn;
  }

  lemma TakeInit(r: Ring, n: nat, v: nat, m: nat)
    requires n > 0 && Inv(r, n, v) && Enabled(r, Take(m)) && r.boxes[m][0].Init?
    ensures Inv(Apply(r, Take(m), v), n, v)
  {
    hide AllArrived, TokensAt, MemberOk, OriginsIn, Origins, Conserved, Apply;
    InitFindsHandler(r, n, v, m);
    TakeInitConserves(r, m, Apply(r, Take(m), v).members);
  }

  /** A token that is taken finds exactly one handler. */
  lemma TokenFindsHandler(r: Ring, n: nat, v: nat, m: nat)
    requires n > 0 && Phases(r, n) && MembersOk(r, n, v) && Enabled(r, Take(m)) && r.boxes[m][0].Token?
    ensures r.members[m].handlers == [TokenHandler] && r.i == 0
    ensures r.members[m].next == Member((m + 1) % n) && r.members[m].caller == Receiver
    ensures TokenAt(r.boxes[m][0], m, n, v)
    ensures var p := HandleToken(r.members[m], m, r.boxes[m][0].value, r.boxes[m][0].origin);
      Apply(r, Take(m), v) == Delivered(Popped(r, m), p)
  {
    assert MemberOk(r.members[m], r.boxes[m], m, n, v, r.i);
    var msg := r.boxes[m][0];
    assert Origins(r.boxes[m]) != [];
    hide AllArrived, OriginsIn, Origins, Conserved;
    CallToken(r.members[m], m, msg);
    assert r.members[m := r.members[m]] == r.members;
    DeliverOne(Popped(r, m), HandleToken(r.members[m], m, msg.value, msg.origin));
  }

  /** A hop or a report keeps the token count. */
  lemma HopConserves(r: Ring, m: nat, p: Post)
    requires Conserved(r) && m < |r.boxes| && r.boxes[m] != [] && r.boxes[m][0].Token?
    requires p.msg.Token? && p.msg.origin == r.boxes[m][0].origin && (p.to == Receiver || p.to.index < |r.boxes|)
    ensures Conserved(Delivered(Popped(r, m), p))
  {
    TakeFromFlight(r.boxes, m);
    var q := Popped(r, m);
    match p.to {
      case Receiver => OriginsPush(q.strand, p.msg);
      case Member(k) => PushInFlight(q.boxes, k, p.msg);
    }
    hide OriginsIn, Origins, UpTo, Conserved;
    ConservedMove(r, Delivered(q, p));
  }

  lemma PoppedMembers(r: Ring, n: nat, v: nat, m: nat)
    requires n > 0 && MembersOk(r, n, v) && m < n && r.boxes[m] != [] && r.members[m].handlers == [TokenHandler]
    ensures MembersOk(Popped(r, m), n, v)
  {
    assert MemberOk(r.members[m], r.boxes[m], m, n, v, r.i);
    assert MemberOk(r.members[m], r.boxes[m][1..], m, n, v, r.i);
    hide MemberOk;
  }

  /** A token with hops to go moves on to the next member. */
  lemma TokenHops(r: Ring, n: nat, v: nat, m: nat, msg: Message, p: Post)
    requires n > 0 && MembersOk(r, n, v) && r.i == 0 && TokenAt(msg, m, n, v) && msg.value > 0
    requires p == Post(Member((m + 1) % n), Token(msg.value - 1, msg.origin, Member(m)))
    ensures MembersOk(Delivered(r, p), n, v) && (m + 1) % n < n
  {
    hide MembersOk;
    SmallerMod(m + 1, n);
    NextMember(msg.origin + (v - msg.value), n);
    MembersPush(r, n, v, (m + 1) % n, p.msg);
  }

  lemma TakeToken(r: Ring, n: nat, v: nat, m: nat)
    requires n > 0 && Inv(r, n, v) && Enabled(r, Take(m)) && r.boxes[m][0].Token?
    ensures Inv(Apply(r, Take(m), v), n, v)
  {
    hide Apply, OriginsIn, Origins, Conserved, MemberOk, AllArrived, TokensAt;
    TokenFindsHandler(r, n, v, m);
    PoppedMembers(r, n, v, m);
    var msg := r.boxes[m][0];
    var p := HandleToken(r.members[m], m, msg.value, msg.origin);
    if msg.value > 0 {
      hide MembersOk;
      TokenHops(Popped(r, m), n, v, m, msg, p);
    } else {
      ArrivedPush(r.strand, p.msg, n, v);
    }
    HopConserves(r, m, p);
  }

  lemma ArrivedPush(msgs: seq<Message>, msg: Message, n: nat, v: nat)
    requires n > 0 && AllArrived(msgs, n, v) && Arrived(msg, n, v)
    ensures AllArrived(msgs + [msg], n, v)
  {
  }

  lemma ArrivedPop(msgs: seq<Message>, n: nat, v: nat)
    requires n > 0 && AllArrived(msgs, n, v) && msgs != []
    ensures Arrived(msgs[0], n, v) && AllArrived(msgs[1..], n, v)
  {
  }

  lemma KeepReceiver(r: Ring, s: Step, n: nat, v: nat)
    requires n > 0 && Inv(r, n, v) && Enabled(r, s) && (s.Receive? || s.WaitReturns?)
    ensures Inv(Apply(r, s, v), n, v)
  {
    hide OriginsIn, Origins, Conserved, MemberOk, AllArrived, Arrived;
    ReceiverConserves(r, s, v);
    if s.Receive? {
      ArrivedPop(r.strand, n, v);
      ArrivedPush(r.queue, r.strand[0], n, v);
    } else {
      ArrivedPop(r.queue, n, v);
      ArrivedPush(r.waited, r.queue[0], n, v);
    }
  }

  lemma ReceiverConserves(r: Ring, s: Step, v: nat)
    requires Conserved(r) && Enabled(r, s) && (s.Receive? || s.WaitReturns?)
    ensures Conserved(Apply(r, s, v))
  {
    var from := if s.Receive? then r.strand else r.queue;
    OriginsPush(if s.Receive? then r.queue else r.waited, from[0]);
    assert Origins(from) == (if from[0].Token? then [from[0].origin] else []) + Origins(from[1..]);
    hide OriginsIn, Origins, UpTo, Conserved;
    ConservedMove(r, Apply(r, s, v));
  }

  lemma KeepInv(r: Ring, s: Step, n: nat, v: nat)
    requires n > 0 && Inv(r, n, v) && Enabled(r, s)
    ensures Inv(Apply(r, s, v), n, v)
  {
    hide Inv, Apply;
    match s
    case SendInit => KeepSendInit(r, n, v);
    case SendToken => KeepSendToken(r, n, v);
    case Take(m) =>
      if r.boxes[m][0].Init? {
        TakeInit(r, n, v, m);
      } else {
        TakeToken(r, n, v, m);
      }
    case Receive => KeepReceiver(r, s, n, v);
    case WaitReturns => KeepReceiver(r, s, n, v);
  }

  lemma InitialInv(n: nat, v: nat)
    requires n > 0
    ensures Inv(Initial(n), n, v)
  {
    NothingInFlight(Initial(n).boxes);
  }

  lemma {:induction false} RunInv(rings: seq<Ring>, steps: seq<Step>, n: nat, v: nat, k: nat)
    requires IsRun(rings, steps, n, v) && k < |rings|
    ensures Inv(rings[k], n, v)
  {
    if k == 0 {
      InitialInv(n, v);
    } else {
      RunInv(rings, steps, n, v, k - 1);
      assert Enabled(rings[k - 1], steps[k - 1]) && rings[(k - 1) + 1] == Apply(rings[k - 1], steps[k - 1], v);
      hide Inv, Apply, IsRun, Enabled;
      KeepInv(rings[k - 1], steps[k - 1], n, v);
    }
  }

  // ---------------------------------------------------------------------------
  // Theorems
  // ---------------------------------------------------------------------------

  /** No member takes a token before its init: every token that is taken is handled, once. */
  lemma NoTokenBeforeInit(rings: seq<Ring>, steps: seq<Step>, n: nat, v: nat, k: nat)
    requires IsRun(rings, steps, n, v) && k < |steps| && steps[k].Take?
    requires Enabled(rings[k], steps[k]) && rings[k].boxes[steps[k].m][0].Token?
    ensures rings[k].members[steps[k].m].handlers == [TokenHandler]
  {
    RunInv(rings, steps, n, v, k);
    TokenFindsHandler(rings[k], n, v, steps[k].m);
  }

  /** Tokens in flight plus tokens received are the tokens sent. */
  lemma TokensConserved(rings: seq<Ring>, steps: seq<Step>, n: nat, v: nat, k: nat)
    requires IsRun(rings, steps, n, v) && k < |rings|
    ensures var r := rings[k];
      |OriginsIn(r.boxes)| + |Origins(r.strand)| + |Origins(r.queue)| + |Origins(r.waited)| == r.sent <= n
  {
    RunInv(rings, steps, n, v, k);
    hide OriginsIn, Origins, IsRun, MembersOk, AllArrived;
    var r := rings[k];
    assert |multiset(OriginsIn(r.boxes)) + multiset(Origins(r.strand)) + multiset(Origins(r.queue)) + multiset(Origins(r.waited))|
        == |multiset(UpTo(r.sent))|;
  }

  lemma {:induction false} AllTokens(msgs: seq<Message>, n: nat, v: nat)
    requires n > 0 && AllArrived(msgs, n, v)
    ensures |Origins(msgs)| == |msgs| && forall k :: 0 <= k < |msgs| ==> Origins(msgs)[k] == msgs[k].origin
  {
    if msgs != [] {
      assert Arrived(msgs[0], n, v);
      AllTokens(msgs[1..], n, v);
    }
  }

  /** Work left until every token has been waited for. */
  function Weight(msg: Message): nat {
    if msg.Init? then 1 else if msg.value < 0 then 3 else msg.value + 3
  }

  function BoxWeight(box: seq<Message>): nat {
    if box == [] then 0 else Weight(box[0]) + BoxWeight(box[1..])
  }

  function BoxesWeight(boxes: seq<seq<Message>>): nat {
    if boxes == [] then 0 else BoxWeight(boxes[0]) + BoxesWeight(boxes[1..])
  }

  /** The product, by repeated addition. */
  function Times(a: nat, b: nat): nat {
    if b == 0 then 0 else a + Times(a, b - 1)
  }

  function WorkLeft(r: Ring, n: nat, v: nat): nat
    requires r.sent <= n
  {
    2 * r.i + Times(v + 4, n - r.sent) + BoxesWeight(r.boxes) + 2 * |r.strand| + |r.queue|
  }

  lemma {:induction false} BoxWeightPush(box: seq<Message>, msg: Message)
    ensures BoxWeight(box + [msg]) == BoxWeight(box) + Weight(msg)
  {
    if box == [] {
      assert [] + [msg] == [msg];
      assert [msg][1..] == [];
    } else {
      BoxWeightPush(box[1..], msg);
      assert (box + [msg])[1..] == box[1..] + [msg];
    }
  }

  lemma {:induction false} BoxesWeightUpdate(boxes: seq<seq<Message>>, m: nat, box: seq<Message>)
    requires m < |boxes|
    ensures BoxesWeight(boxes[m := box]) == BoxesWeight(boxes) - BoxWeight(boxes[m]) + BoxWeight(box)
  {
    hide BoxWeight;
    if m > 0 {
      BoxesWeightUpdate(boxes[1..], m - 1, box);
      assert boxes[m := box][1..] == boxes[1..][m - 1 := box];
    } else {
      assert boxes[m := box][1..] == boxes[1..];
    }
  }

  lemma PushWeight(boxes: seq<seq<Message>>, m: nat, msg: Message)
    requires m < |boxes|
    ensures BoxesWeight(boxes[m := boxes[m] + [msg]]) == BoxesWeight(boxes) + Weight(msg)
  {
    BoxesWeightUpdate(boxes, m, boxes[m] + [msg]);
    BoxWeightPush(boxes[m], msg);
  }

  lemma PopWeight(boxes: seq<seq<Message>>, m: nat)
    requires m < |boxes| && boxes[m] != []
    ensures BoxesWeight(boxes[m := boxes[m][1..]]) == BoxesWeight(boxes) - Weight(boxes[m][0])
  {
    BoxesWeightUpdate(boxes, m, boxes[m][1..]);
  }

  /** Between two states of the same phase only mailboxes and queues count. */
  lemma WorkDifference(r: Ring, r': Ring, n: nat, v: nat)
    requires r.sent == r'.sent <= n && r.i == r'.i
    ensures WorkLeft(r', n, v) - WorkLeft(r, n, v) ==
      BoxesWeight(r'.boxes) - BoxesWeight(r.boxes) + 2 * |r'.strand| - 2 * |r.strand| + |r'.queue| - |r.queue|
  {
    hide BoxesWeight;
  }

  lemma TakeTokenDescends(r: Ring, n: nat, v: nat, m: nat)
    requires n > 0 && Phases(r, n) && MembersOk(r, n, v) && Enabled(r, Take(m)) && r.boxes[m][0].Token?
    ensures Apply(r, Take(m), v).sent == r.sent <= n
    ensures WorkLeft(Apply(r, Take(m), v), n, v) < WorkLeft(r, n, v)
  {
    var msg := r.boxes[m][0];
    hide MemberOk, Conserved, AllArrived, TokenAt;
    TokenFindsHandler(r, n, v, m);
    assert r.sent <= n && |r.boxes| == n;
    hide MembersOk, Phases, BoxesWeight, BoxWeight, Apply, WorkLeft;
    PopWeight(r.boxes, m);
    var p := HandleToken(r.members[m], m, msg.value, msg.origin);
    WorkDifference(r, Delivered(Popped(r, m), p), n, v);
    if msg.value > 0 {
      SmallerMod(m + 1, n);
      PushWeight(Popped(r, m).boxes, (m + 1) % n, p.msg);
    }
  }

  lemma TakeInitDescends(r: Ring, n: nat, v: nat, m: nat)
    requires n > 0 && Phases(r, n) && MembersOk(r, n, v) && Enabled(r, Take(m)) && r.boxes[m][0].Init?
    ensures Apply(r, Take(m), v).sent == r.sent <= n
    ensures WorkLeft(Apply(r, Take(m), v), n, v) < WorkLeft(r, n, v)
  {
    hide BoxesWeight, BoxWeight, Apply, MemberOk, WorkLeft, Conserved, AllArrived;
    InitFindsHandler(r, n, v, m);
    PopWeight(r.boxes, m);
    WorkDifference(r, Apply(r, Take(m), v), n, v);
  }

  lemma SendDescends(r: Ring, s: Step, n: nat, v: nat)
    requires Enabled(r, s) && (s.SendInit? || s.SendToken?) && r.sent <= n == |r.boxes|
    ensures Apply(r, s, v).sent <= n && WorkLeft(Apply(r, s, v), n, v) < WorkLeft(r, n, v)
  {
    hide BoxesWeight;
    if s.SendInit? {
      PushWeight(r.boxes, r.i - 1, Init(Member(r.nextI), Receiver));
    } else {
      PushWeight(r.boxes, r.sent, Token(v, r.sent, Receiver));
    }
  }

  /** Every step brings the end closer. */
  lemma StepDescends(r: Ring, s: Step, n: nat, v: nat)
    requires n > 0 && Inv(r, n, v) && Enabled(r, s)
    ensures Apply(r, s, v).sent <= n && WorkLeft(Apply(r, s, v), n, v) < WorkLeft(r, n, v)
  {
    hide BoxesWeight, Conserved, MemberOk, AllArrived, Origins;
    match s
    case Take(m) =>
      if r.boxes[m][0].Token? {
        TakeTokenDescends(r, n, v, m);
      } else {
        TakeInitDescends(r, n, v, m);
      }
    case SendInit => SendDescends(r, s, n, v);
    case SendToken => SendDescends(r, s, n, v);
    case Receive =>
    case WaitReturns =>
  }

  /** No run is longer than the work there is at the start. */
  lemma {:induction false} RunsEnd(rings: seq<Ring>, steps: seq<Step>, n: nat, v: nat, k: nat)
    requires IsRun(rings, steps, n, v) && k < |rings|
    ensures rings[k].sent <= n && WorkLeft(rings[k], n, v) + k <= WorkLeft(rings[0], n, v)
  {
    hide Inv, WorkLeft, Apply, Enabled;
    if k > 0 {
      RunsEnd(rings, steps, n, v, k - 1);
      RunInv(rings, steps, n, v, k - 1);
      assert Enabled(rings[k - 1], steps[k - 1]) && rings[(k - 1) + 1] == Apply(rings[k - 1], steps[k - 1], v);
      StepDescends(rings[k - 1], steps[k - 1], n, v);
    }
  }

  /** A ring in which nothing can happen is set up, has sent everything and has empty mailboxes. */
  lemma QuietBoxes(r: Ring, n: nat, v: nat)
    requires n > 0 && Phases(r, n) && MembersOk(r, n, v) && forall s :: !Enabled(r, s)
    ensures r.i == 0 && r.sent == n && r.strand == [] && OriginsIn(r.boxes) == []
    ensures |r.waited| < n ==> r.queue == []
  {
    hide MemberOk, OriginsIn;
    assert !Enabled(r, SendInit) && !Enabled(r, SendToken) && !Enabled(r, Receive) && !Enabled(r, WaitReturns);
    SmallerMod(r.i, n);
    forall m | 0 <= m < n
      ensures r.boxes[m] == []
    {
      assert !Enabled(r, Take(m));
    }
    NothingInFlight(r.boxes);
  }

  lemma SmallerMod(i: nat, n: nat)
    requires n > 0
    ensures i % n < n
  {
  }

  /** When nothing can happen any more, every token has been received and waited for. */
  lemma QuietRing(r: Ring, n: nat, v: nat)
    requires n > 0 && Inv(r, n, v) && forall s :: !Enabled(r, s)
    ensures r.sent == n && |r.waited| == n && AllArrived(r.waited, n, v)
    ensures multiset(Origins(r.waited)) == multiset(UpTo(n))
  {
    EmptyOrigins(r.strand);
    EmptyOrigins(r.queue);
    hide AllArrived, MembersOk, OriginsIn, Origins, Phases;
    QuietBoxes(r, n, v);
    AllTokens(r.waited, n, v);
    AllTokens(r.queue, n, v);
    var q, w := multiset(Origins(r.queue)), multiset(Origins(r.waited));
    assert q + w == multiset(UpTo(n));
    assert |q + w| == |q| + |w| == |r.queue| + |r.waited| && |multiset(UpTo(n))| == n;
    assert |Origins(r.queue)| == 0;
    assert q == multiset{};
  }

  lemma EmptyOrigins(box: seq<Message>)
    ensures box == [] ==> Origins(box) == []
  {
  }

  /**
   A run that cannot go on has exactly one receipt per token: for each origin
   `i`, the value 0 sent by member `(i + v) mod n`.
   */
  lemma EveryTokenComesHome(rings: seq<Ring>, steps: seq<Step>, n: nat, v: nat)
    requires IsRun(rings, steps, n, v) && forall s :: !Enabled(rings[|steps|], s)
    ensures var waited := rings[|steps|].waited;
      && |waited| == n && multiset(Origins(waited)) == multiset(UpTo(n))
      && forall k :: 0 <= k < n ==>
           waited[k].Token? && waited[k] == Token(0, waited[k].origin, Member((waited[k].origin + v) % n))
  {
    hide Inv, Enabled, Apply, Initial, Origins, UpTo, AllArrived;
    RunInv(rings, steps, n, v, |steps|);
    hide IsRun;
    QuietRing(rings[|steps|], n, v);
    AllHome(rings[|steps|].waited, n, v);
  }

  lemma AllHome(msgs: seq<Message>, n: nat, v: nat)
    requires n > 0 && AllArrived(msgs, n, v)
    ensures forall k :: 0 <= k < |msgs| ==>
      msgs[k].Token? && msgs[k] == Token(0, msgs[k].origin, Member((msgs[k].origin + v) % n))
  {
    forall k | 0 <= k < |msgs|
      ensures msgs[k].Token? && msgs[k] == Token(0, msgs[k].origin, Member((msgs[k].origin + v) % n))
    {
      assert Arrived(msgs[k], n, v);
    }
  }

  // ---------------------------------------------------------------------------
  // The receiver
  // ---------------------------------------------------------------------------

  /** Everything that was ever sent to the receiver, in order: what wait() returned, its queue, its mailbox. */
  function Reported(r: Ring): seq<Message> {
    r.waited + r.queue + r.strand
  }

  /** A member that takes a message adds at most one to the receiver's mailbox. */
  lemma TakeReports(r: Ring, n: nat, v: nat, m: nat)
    requires n > 0 && Phases(r, n) && MembersOk(r, n, v) && Enabled(r, Take(m))
    ensures var r' := Apply(r, Take(m), v); r'.waited == r.waited && r'.queue == r.queue && r.strand <= r'.strand
  {
    hide MemberOk;
    if r.boxes[m][0].Token? {
      TokenFindsHandler(r, n, v, m);
    } else {
      InitFindsHandler(r, n, v, m);
    }
    hide Apply, Phases, MembersOk;
  }

  lemma MailGrows(a: seq<Message>, b: seq<Message>, c: seq<Message>, c': seq<Message>)
    requires c <= c'
    ensures a + b + c <= a + b + c'
  {
  }

  lemma FrontMoves(a: seq<Message>, b: seq<Message>)
    requires b != []
    ensures a + b == a + [b[0]] + b[1..]
  {
  }

  /** The receiver's handler and wait() move messages on in order; the other steps only add to its mailbox. */
  lemma ReportedGrows(r: Ring, s: Step, n: nat, v: nat)
    requires n > 0 && Phases(r, n) && MembersOk(r, n, v) && Enabled(r, s)
    ensures Reported(r) <= Reported(Apply(r, s, v)) && r.waited <= Apply(r, s, v).waited
    ensures s.Receive? || s.WaitReturns? ==> Reported(Apply(r, s, v)) == Reported(r)
    ensures s.WaitReturns? ==> |Apply(r, s, v).waited| == |r.waited| + 1
  {
    if s.Receive? {
      FrontMoves(r.waited + r.queue, r.strand);
    } else if s.WaitReturns? {
      FrontMoves(r.waited, r.queue);
    } else {
      OthersReport(r, s, n, v);
      hide Apply, Phases, MembersOk;
      MailGrows(r.waited, r.queue, r.strand, Apply(r, s, v).strand);
    }
  }

  lemma OthersReport(r: Ring, s: Step, n: nat, v: nat)
    requires n > 0 && Phases(r, n) && MembersOk(r, n, v) && Enabled(r, s) && !s.Receive? && !s.WaitReturns?
    ensures var r' := Apply(r, s, v); r'.waited == r.waited && r'.queue == r.queue && r.strand <= r'.strand
  {
    hide Phases, MembersOk;
    if s.Take? {
      hide Apply;
      TakeReports(r, n, v, s.m);
    }
  }

  /** wait() returns the messages in the order in which they were sent to the receiver. */
  lemma {:induction false} ReceiverIsFifo(rings: seq<Ring>, steps: seq<Step>, n: nat, v: nat, j: nat, k: nat)
    requires IsRun(rings, steps, n, v) && j <= k < |rings|
    ensures Reported(rings[j]) <= Reported(rings[k]) && rings[j].waited <= rings[k].waited <= Reported(rings[k])
  {
    hide Inv, Apply, Enabled;
    assert rings[k].waited <= rings[k].waited + rings[k].queue + rings[k].strand;
    if j < k {
      ReceiverIsFifo(rings, steps, n, v, j, k - 1);
      RunInv(rings, steps, n, v, k - 1);
      assert Enabled(rings[k - 1], steps[k - 1]) && rings[(k - 1) + 1] == Apply(rings[k - 1], steps[k - 1], v);
      hide IsRun, Reported;
      InvParts(rings[k - 1], n, v);
      ReportedGrows(rings[k - 1], steps[k - 1], n, v);
    }
  }

  lemma InvParts(r: Ring, n: nat, v: nat)
    requires n > 0 && Inv(r, n, v)
    ensures Phases(r, n) && MembersOk(r, n, v)
  {
  }

  /** The rounded-up token value makes the tokens hop at least `hops` times and less than one round more. */
  lemma RoundedUp(hops: nat, n: nat)
    requires n > 0
    ensures var v := (hops + n - 1) / n; hops <= n * v < hops + n
  {
    var v := (hops + n - 1) / n;
    assert v * n + (hops + n - 1) % n == hops + n - 1;
  }
}
