/**
 The chat room and its sessions: the bounded list of recent messages, the write
 queue of each session with at most one write in flight, and the ways a session
 leaves. A run is any interleaving of joins, messages, write completions and
 read failures.
 */
module ChatRooms {
  import opened Basics

  type Message = string

  const MAX_RECENT := 100

  // ---------------------------------------------------------------------------
  // Sessions
  // ---------------------------------------------------------------------------

  datatype Session = Session(
    joined: bool,                // in participants_
    writeMsgs: seq<Message>,     // write_msgs_
    writing: bool,               // an async_write of the front message is outstanding
    failed: bool,                // a write has failed
    sent: seq<Message>,          // messages whose write has completed
    joinedAt: nat,               // messages the room had delivered when the session joined
    leftAt: Option<nat>          // and when it left
  )

  /** chat_session::deliver. */
  function DeliverTo(s: Session, msg: Message): Session {
    s.(writeMsgs := s.writeMsgs + [msg], writing := s.writing || s.writeMsgs == [])
  }

  /** The loop of chat_room::join over the recent messages. */
  function DeliverAllTo(s: Session, msgs: seq<Message>): Session {
    if msgs == [] then s else DeliverTo(DeliverAllTo(s, msgs[..|msgs| - 1]), msgs[|msgs| - 1])
  }

  function LeaveAt(s: Session, now: nat): Session {
    if s.joined then s.(joined := false, leftAt := Some(now)) else s
  }

  /** The handler of async_write. */
  function WriteDone(s: Session, ok: bool, now: nat): Session
    requires s.writeMsgs != []
  {
    if ok then
      s.(writeMsgs := s.writeMsgs[1..], sent := s.sent + [s.writeMsgs[0]], writing := |s.writeMsgs| > 1)
    else LeaveAt(s.(failed := true, writing := false), now)
  }

  // ---------------------------------------------------------------------------
  // The room
  // ---------------------------------------------------------------------------

  /** `delivered` is every message the room was ever asked to deliver. */
  datatype Room = Room(recent: seq<Message>, sessions: seq<Session>, delivered: seq<Message>)

  function LastOf(msgs: seq<Message>, n: nat): seq<Message> {
    if |msgs| <= n then msgs else msgs[|msgs| - n..]
  }

  function DeliverEach(ss: seq<Session>, msg: Message): seq<Session> {
    seq(|ss|, i requires 0 <= i < |ss| => if ss[i].joined then DeliverTo(ss[i], msg) else ss[i])
  }

  class ChatRoom {
    var recent: seq<Message>
    var sessions: seq<Session>
    var delivered: seq<Message>     // history

    function Value(): Room
      reads this
    {
      Room(recent, sessions, delivered)
    }

    constructor ()
      ensures Value() == Room([], [], [])
    {
      recent, sessions, delivered := [], [], [];
    }

    /** chat_room::deliver. */
    method Deliver(msg: Message)
      modifies this
      ensures Value() == Apply(old(Value()), Say(msg))
      ensures delivered == old(delivered) + [msg]
    {
      Remember(msg);
      DeliverToParticipants(msg);
      delivered := delivered + [msg];
    }

    method Remember(msg: Message)
      modifies this`recent
      ensures recent == LastOf(old(recent) + [msg], MAX_RECENT)
      ensures |old(recent)| <= 100 ==> recent == if |old(recent)| < 100 then old(recent) + [msg] else old(recent)[1..] + [msg]
    {
      ghost var all := recent + [msg];
      recent := recent + [msg];
      while |recent| > MAX_RECENT
        invariant |recent| <= |all| && recent == all[|all| - |recent|..]
        invariant recent == all || |recent| >= MAX_RECENT
        decreases |recent|
      {
        recent := recent[1..];
      }
    }

    method DeliverToParticipants(msg: Message)
      modifies this`sessions
      ensures sessions == DeliverEach(old(sessions), msg) && |sessions| == |old(sessions)|
      ensures forall j :: 0 <= j < |sessions| && !sessions[j].joined ==> sessions[j] == old(sessions)[j]
      ensures forall j :: 0 <= j < |sessions| && sessions[j].joined ==>
        && sessions[j].writeMsgs == old(sessions)[j].writeMsgs + [msg] && sessions[j].sent == old(sessions)[j].sent
        && (sessions[j].writing <==> old(sessions)[j].writing || old(sessions)[j].writeMsgs == [])
    {
      for i := 0 to |sessions|
        invariant |sessions| == |old(sessions)|
        invariant forall j :: i <= j < |sessions| ==> sessions[j] == old(sessions)[j]
        invariant forall j :: 0 <= j < i ==> sessions[j] == DeliverEach(old(sessions), msg)[j]
      {
        if sessions[i].joined {
          sessions := sessions[i := DeliverTo(sessions[i], msg)];
        }
      }
    }

    /** The handler of a session's async_write. */
    method WriteHandler(i: nat, ok: bool)
      requires Enabled(Value(), Written(i, ok))
      modifies this`sessions
      ensures Value() == Apply(old(Value()), Written(i, ok))
      ensures WriteOutcome(old(sessions)[i], sessions[i], ok) && OthersSame(old(sessions), sessions, i)
    {
      var s := sessions[i];
      if ok {
        s := s.(sent := s.sent + [s.writeMsgs[0]], writeMsgs := s.writeMsgs[1..]);
        s := s.(writing := s.writeMsgs != []);
      } else {
        s := s.(failed := true, writing := false);
        if s.joined {
          s := s.(joined := false, leftAt := Some(|delivered|));
        }
      }
      sessions := sessions[i := s];
    }

    /** chat_room::leave, called when a read fails or a header is refused. */
    method Leave(i: nat)
      requires i < |sessions|
      modifies this`sessions
      ensures Value() == Apply(old(Value()), ReadFailed(i))
      ensures OnlyLeaves(old(sessions)[i], sessions[i]) && OthersSame(old(sessions), sessions, i)
    {
      var s := sessions[i];
      if s.joined {
        s := s.(joined := false, leftAt := Some(|delivered|));
      }
      sessions := sessions[i := s];
    }

    /** chat_session::start up to its first read: join the room. */
    method Join()
      modifies this
      ensures Value() == Apply(old(Value()), Enter)
      ensures |sessions| == |old(sessions)| + 1 && sessions[..|old(sessions)|] == old(sessions)
      ensures var s := sessions[|old(sessions)|];
        s.joined && s.sent == [] && s.writeMsgs == recent && (s.writing <==> recent != [])
    {
      DeliverAllIs(|delivered|, recent);
      var s := NewSession(|delivered|);
      for i := 0 to |recent|
        invariant unchanged(this) && s == DeliverAllTo(NewSession(|delivered|), recent[..i])
      {
        assert recent[..i + 1][..i] == recent[..i];
        s := DeliverTo(s, recent[i]);
      }
      assert recent[..|recent|] == recent;
      sessions := sessions + [s];
    }
  }

  /** A write that succeeded takes the front message out and goes on; one that failed takes the session out of the room. */
  predicate WriteOutcome(s: Session, s': Session, ok: bool)
    requires s.writeMsgs != []
  {
    if ok then
      && s'.sent == s.sent + [s.writeMsgs[0]] && s'.writeMsgs == s.writeMsgs[1..]
      && (s'.writing <==> s'.writeMsgs != []) && s'.joined == s.joined && s'.failed == s.failed
    else
      && s'.sent == s.sent && s'.writeMsgs == s.writeMsgs
      && s'.failed && !s'.writing && !s'.joined
  }

  /** The session is out of the room; what it still has to write is written. */
  predicate OnlyLeaves(s: Session, s': Session) {
    !s'.joined && s'.sent == s.sent && s'.writeMsgs == s.writeMsgs && s'.writing == s.writing && s'.failed == s.failed
  }

  ghost predicate OthersSame(ss: seq<Session>, ss': seq<Session>, i: nat) {
    |ss'| == |ss| && forall j :: 0 <= j < |ss| && j != i ==> ss'[j] == ss[j]
  }

  function NewSession(now: nat): Session {
    Session(true, [], false, false, [], now, None)
  }

  datatype Event = Enter | Say(msg: Message) | Written(i: nat, ok: bool) | ReadFailed(i: nat)

  predicate Enabled(r: Room, e: Event) {
    match e
    case Enter => true
    case Say(_) => true
    case Written(i, _) => i < |r.sessions| && r.sessions[i].writing && r.sessions[i].writeMsgs != []
    case ReadFailed(i) => i < |r.sessions|
  }

  function Apply(r: Room, e: Event): Room
    requires Enabled(r, e)
  {
    match e
    case Enter => r.(sessions := r.sessions + [DeliverAllTo(NewSession(|r.delivered|), r.recent)])
    case Say(msg) =>
      Room(LastOf(r.recent + [msg], MAX_RECENT), DeliverEach(r.sessions, msg), r.delivered + [msg])
    case Written(i, ok) => r.(sessions := r.sessions[i := WriteDone(r.sessions[i], ok, |r.delivered|)])
    case ReadFailed(i) => r.(sessions := r.sessions[i := LeaveAt(r.sessions[i], |r.delivered|)])
  }

  ghost predicate IsRun(rooms: seq<Room>, events: seq<Event>) {
    && |rooms| == |events| + 1
    && rooms[0] == Room([], [], [])
    && forall k :: 0 <= k < |events| ==> Enabled(rooms[k], events[k]) && rooms[k + 1] == Apply(rooms[k], events[k])
  }

  // ---------------------------------------------------------------------------
  // Invariant
  // ---------------------------------------------------------------------------

  /** Everything the session should get: the recent list at its join and what was delivered until it left. */
  function Due(s: Session, delivered: seq<Message>): seq<Message>
    requires s.joinedAt <= (if s.leftAt.Some? then s.leftAt.value else |delivered|) <= |delivered|
  {
    var end := if s.leftAt.Some? then s.leftAt.value else |delivered|;
    LastOf(delivered[..s.joinedAt], MAX_RECENT) + delivered[s.joinedAt..end]
  }

  ghost predicate SessionOk(s: Session, delivered: seq<Message>) {
    && s.joinedAt <= (if s.leftAt.Some? then s.leftAt.value else |delivered|) <= |delivered|
    && (s.joined <==> s.leftAt.None?)
    && s.sent + s.writeMsgs == Due(s, delivered)
    && (s.writing <==> s.writeMsgs != [] && !s.failed)
    && (s.failed ==> !s.joined && s.writeMsgs != [])
  }

  ghost predicate Inv(r: Room) {
    && r.recent == LastOf(r.delivered, MAX_RECENT)
    && forall i :: 0 <= i < |r.sessions| ==> SessionOk(r.sessions[i], r.delivered)
  }

  lemma {:induction false} DeliverAllIs(now: nat, msgs: seq<Message>)
    ensures DeliverAllTo(NewSession(now), msgs) == NewSession(now).(writeMsgs := msgs, writing := msgs != [])
  {
    if msgs != [] {
      DeliverAllIs(now, msgs[..|msgs| - 1]);
      assert msgs[..|msgs| - 1] + [msgs[|msgs| - 1]] == msgs;
    }
  }

  lemma EnterOk(r: Room)
    requires Inv(r)
    ensures SessionOk(DeliverAllTo(NewSession(|r.delivered|), r.recent), r.delivered)
  {
    DeliverAllIs(|r.delivered|, r.recent);
    hide LastOf, DeliverAllTo;
    assert r.delivered[..|r.delivered|] == r.delivered;
    assert r.recent + [] == r.recent && [] + r.recent == r.recent;
  }

  /** A message reaches a participant and passes a session that has left. */
  lemma SayOk(s: Session, delivered: seq<Message>, msg: Message)
    requires SessionOk(s, delivered)
    ensures SessionOk(if s.joined then DeliverTo(s, msg) else s, delivered + [msg])
  {
    hide LastOf;
    assert (delivered + [msg])[..s.joinedAt] == delivered[..s.joinedAt];
    if s.joined {
      assert (delivered + [msg])[s.joinedAt..] == delivered[s.joinedAt..] + [msg];
      assert s.sent + (s.writeMsgs + [msg]) == s.sent + s.writeMsgs + [msg];
      assert Due(s, delivered + [msg]) == Due(s, delivered) + [msg];
    } else {
      assert (delivered + [msg])[s.joinedAt..s.leftAt.value] == delivered[s.joinedAt..s.leftAt.value];
    }
  }

  lemma LastOfPush(delivered: seq<Message>, msg: Message)
    ensures LastOf(LastOf(delivered, MAX_RECENT) + [msg], MAX_RECENT) == LastOf(delivered + [msg], MAX_RECENT)
  {
  }

  lemma WrittenOk(s: Session, ok: bool, delivered: seq<Message>)
    requires SessionOk(s, delivered) && s.writing && s.writeMsgs != []
    ensures SessionOk(WriteDone(s, ok, |delivered|), delivered)
  {
    hide LastOf;
    assert s.sent + [s.writeMsgs[0]] + s.writeMsgs[1..] == s.sent + s.writeMsgs;
  }

  lemma LeaveOk(s: Session, delivered: seq<Message>)
    requires SessionOk(s, delivered)
    ensures SessionOk(LeaveAt(s, |delivered|), delivered)
  {
    hide LastOf;
  }

  lemma KeepInv(r: Room, e: Event)
    requires Inv(r) && Enabled(r, e)
    ensures Inv(Apply(r, e))
  {
    hide SessionOk, LastOf, DeliverTo, DeliverAllTo, WriteDone, LeaveAt;
    match e
    case Enter => EnterOk(r);
    case Say(msg) =>
      LastOfPush(r.delivered, msg);
      forall i | 0 <= i < |r.sessions|
        ensures SessionOk(Apply(r, e).sessions[i], r.delivered + [msg])
      {
        SayOk(r.sessions[i], r.delivered, msg);
      }
    case Written(i, ok) => WrittenOk(r.sessions[i], ok, r.delivered);
    case ReadFailed(i) => LeaveOk(r.sessions[i], r.delivered);
  }

  lemma {:induction false} RunInv(rooms: seq<Room>, events: seq<Event>, k: nat)
    requires IsRun(rooms, events) && k < |rooms|
    ensures Inv(rooms[k])
  {
    if k > 0 {
      RunInv(rooms, events, k - 1);
      assert Enabled(rooms[k - 1], events[k - 1]) && rooms[(k - 1) + 1] == Apply(rooms[k - 1], events[k - 1]);
      hide Inv, Apply, IsRun, Enabled;
      KeepInv(rooms[k - 1], events[k - 1]);
    }
  }

  // ---------------------------------------------------------------------------
  // Theorems
  // ---------------------------------------------------------------------------

  /** recent_msgs_ is the last min(100, n) of the n delivered messages. */
  lemma RecentIsTheTail(rooms: seq<Room>, events: seq<Event>, k: nat)
    requires IsRun(rooms, events) && k < |rooms|
    ensures var r := rooms[k];
      && |r.recent| == (if |r.delivered| < 100 then |r.delivered| else 100)
      && r.recent == r.delivered[|r.delivered| - |r.recent|..]
  {
    RunInv(rooms, events, k);
    hide IsRun, SessionOk;
  }

  /** What a session has sent and queued is what it was due, in order; it writes exactly while something is queued and no write failed. */
  lemma SessionGetsItsDue(rooms: seq<Room>, events: seq<Event>, k: nat, i: nat)
    requires IsRun(rooms, events) && k < |rooms| && i < |rooms[k].sessions|
    ensures var s, d := rooms[k].sessions[i], rooms[k].delivered;
      var end := if s.leftAt.Some? then s.leftAt.value else |d|;
      && s.joinedAt <= end <= |d|
      && s.sent + s.writeMsgs == d[(if s.joinedAt < 100 then 0 else s.joinedAt - 100)..s.joinedAt] + d[s.joinedAt..end]
      && (s.writing <==> s.writeMsgs != [] && !s.failed)
      && (s.joined <==> s.leftAt.None?)
  {
    RunInv(rooms, events, k);
    hide IsRun;
    assert SessionOk(rooms[k].sessions[i], rooms[k].delivered);
  }

  // ---------------------------------------------------------------------------
  // What the end of a write and a failed read do
  // ---------------------------------------------------------------------------

  /** Completion of a write, and its failure, which takes the session out of the room and leaves everybody else alone. */
  lemma WriteEnds(rooms: seq<Room>, events: seq<Event>, k: nat)
    requires IsRun(rooms, events) && k < |events| && events[k].Written?
    ensures var r, r', i := rooms[k], rooms[k + 1], events[k].i;
      && i < |r.sessions| && r.sessions[i].writeMsgs != [] && OthersSame(r.sessions, r'.sessions, i)
      && WriteOutcome(r.sessions[i], r'.sessions[i], events[k].ok)
      && r'.recent == r.recent && r'.delivered == r.delivered
  {
    assert Enabled(rooms[k], events[k]) && rooms[k + 1] == Apply(rooms[k], events[k]);
  }

  /** A failed read takes the session out of the room, lets its writes go on, and leaves everybody else alone. */
  lemma ReadEnds(rooms: seq<Room>, events: seq<Event>, k: nat)
    requires IsRun(rooms, events) && k < |events| && events[k].ReadFailed?
    ensures var r, r', i := rooms[k], rooms[k + 1], events[k].i;
      && i < |r.sessions| && OthersSame(r.sessions, r'.sessions, i) && OnlyLeaves(r.sessions[i], r'.sessions[i])
      && r'.recent == r.recent && r'.delivered == r.delivered
  {
    RunInv(rooms, events, k);
    assert Enabled(rooms[k], events[k]) && rooms[k + 1] == Apply(rooms[k], events[k]);
  }

  /** A session is in the room until a read of its own or a write to it fails. */
  lemma LeavesExactly(rooms: seq<Room>, events: seq<Event>, k: nat, i: nat)
    requires IsRun(rooms, events) && k < |events| && i < |rooms[k].sessions| && rooms[k].sessions[i].joined
    ensures i < |rooms[k + 1].sessions|
    ensures !rooms[k + 1].sessions[i].joined <==> events[k] == ReadFailed(i) || events[k] == Written(i, false)
  {
    assert Enabled(rooms[k], events[k]) && rooms[k + 1] == Apply(rooms[k], events[k]);
  }

  /** Every message that a session sends is delivered, and nothing else is; every session that starts joins the room. */
  lemma SayAndEnter(rooms: seq<Room>, events: seq<Event>, k: nat)
    requires IsRun(rooms, events) && k < |events|
    ensures var r, r', e := rooms[k], rooms[k + 1], events[k];
      && r'.delivered == r.delivered + (if e.Say? then [e.msg] else [])
      && |r'.sessions| == |r.sessions| + (if e.Enter? then 1 else 0)
      && (e.Enter? ==> var s := r'.sessions[|r.sessions|]; s.joined && s.joinedAt == |r.delivered| && s.sent + s.writeMsgs == r.recent)
  {
    assert Enabled(rooms[k], events[k]) && rooms[k + 1] == Apply(rooms[k], events[k]);
    if events[k].Enter? {
      DeliverAllIs(|rooms[k].delivered|, rooms[k].recent);
    }
  }

  /** How many writes to session `i` have succeeded. */
  function Successes(events: seq<Event>, i: nat): nat {
    if events == [] then 0 else
      Successes(events[..|events| - 1], i) + if events[|events| - 1] == Written(i, true) then 1 else 0
  }

  lemma SentGrows(r: Room, e: Event, i: nat)
    requires Enabled(r, e) && i < |Apply(r, e).sessions|
    ensures i < |r.sessions| ==>
      |Apply(r, e).sessions[i].sent| == |r.sessions[i].sent| + if e == Written(i, true) then 1 else 0
    ensures i >= |r.sessions| ==> Apply(r, e).sessions[i].sent == [] && e != Written(i, true)
  {
    if e.Enter? {
      DeliverAllIs(|r.delivered|, r.recent);
    }
  }

  lemma {:induction false} NoneYet(rooms: seq<Room>, events: seq<Event>, k: nat, i: nat)
    requires IsRun(rooms, events) && k < |rooms| && i >= |rooms[k].sessions|
    ensures Successes(events[..k], i) == 0
  {
    if k > 0 {
      assert Enabled(rooms[k - 1], events[k - 1]) && rooms[(k - 1) + 1] == Apply(rooms[k - 1], events[k - 1]);
      hide IsRun;
      assert events[..k][..k - 1] == events[..k - 1];
      NoneYet(rooms, events, k - 1, i);
    }
  }

  /** A session has sent as many messages as writes to it have succeeded. */
  lemma {:induction false} SentCountsSuccesses(rooms: seq<Room>, events: seq<Event>, k: nat, i: nat)
    requires IsRun(rooms, events) && k < |rooms| && i < |rooms[k].sessions|
    ensures |rooms[k].sessions[i].sent| == Successes(events[..k], i)
  {
    if k > 0 {
      assert Enabled(rooms[k - 1], events[k - 1]) && rooms[(k - 1) + 1] == Apply(rooms[k - 1], events[k - 1]);
      hide Apply, Enabled;
      assert events[..k][..k - 1] == events[..k - 1];
      SentGrows(rooms[k - 1], events[k - 1], i);
      if i < |rooms[k - 1].sessions| {
        SentCountsSuccesses(rooms, events, k - 1, i);
      } else {
        NoneYet(rooms, events, k - 1, i);
      }
    }
  }

  lemma FailedStepStays(r: Room, e: Event, i: nat)
    requires Enabled(r, e) && i < |r.sessions| && SessionOk(r.sessions[i], r.delivered) && r.sessions[i].failed
    ensures i < |Apply(r, e).sessions|
    ensures var s, s' := r.sessions[i], Apply(r, e).sessions[i];
      s'.failed && !s'.joined && s'.sent == s.sent && s'.writeMsgs == s.writeMsgs
  {
  }

  /** After its first failed write a session is out of the room and neither sends nor receives anything. */
  lemma {:induction false} FailedForGood(rooms: seq<Room>, events: seq<Event>, k: nat, m: nat, i: nat)
    requires IsRun(rooms, events) && k < m < |rooms| && events[k] == Written(i, false)
    ensures i < |rooms[k].sessions| && i < |rooms[m].sessions|
    ensures var s, s' := rooms[k].sessions[i], rooms[m].sessions[i];
      s'.failed && !s'.joined && s'.sent == s.sent && s'.writeMsgs == s.writeMsgs
  {
    WriteEnds(rooms, events, k);
    if k + 1 < m {
      FailedForGood(rooms, events, k, m - 1, i);
      RunInv(rooms, events, m - 1);
      assert Enabled(rooms[m - 1], events[m - 1]) && rooms[(m - 1) + 1] == Apply(rooms[m - 1], events[m - 1]);
      hide IsRun, Apply, Enabled, SessionOk;
      FailedStepStays(rooms[m - 1], events[m - 1], i);
    }
  }
}
