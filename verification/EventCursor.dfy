/** The GUI's event cursor: at-most-once delivery of bus events over replays and reconnects. */
module EventCursor {
  import opened Wrappers

  datatype BusEvent = BusEvent(id: nat, notification: string)

  /** The two arms of the frame handler that touch the cursor. */
  datatype Message = Replay(session: nat, events: seq<BusEvent>) | Live(event: BusEvent)

  datatype Inbox = Inbox(cursor: nat, session: nat, queue: seq<BusEvent>)

  function Offered(s: Inbox, event: BusEvent): Inbox {
    if event.id <= s.cursor then s else s.(cursor := event.id, queue := s.queue + [event])
  }

  function OfferedAll(s: Inbox, events: seq<BusEvent>): Inbox
    decreases |events|
  {
    if events == [] then s
    else Offered(OfferedAll(s, events[..|events| - 1]), events[|events| - 1])
  }

  function EventsOf(m: Message): seq<BusEvent> {
    match m
    case Replay(_, events) => events
    case Live(event) => [event]
  }

  predicate ChangesSession(s: Inbox, m: Message) {
    m.Replay? && m.session != s.session
  }

  function Handled(s: Inbox, m: Message): Inbox {
    var resumed := if ChangesSession(s, m) then s.(session := m.session, cursor := 0) else s;
    OfferedAll(resumed, EventsOf(m))
  }

  class UiTx {
    var lastEventId: nat
    var eventSessionId: nat
    var notifications: seq<BusEvent>

    constructor ()
      ensures View() == Inbox(0, 0, [])
    {
      lastEventId, eventSessionId, notifications := 0, 0, [];
    }

    function View(): Inbox
      reads this
    {
      Inbox(lastEventId, eventSessionId, notifications)
    }

    /** `compare_exchange_weak` with nobody else writing: it may fail spuriously. */
    method CompareExchange(observed: nat, id: nat, fails: bool) returns (r: Result<nat, string>, current: nat)
      modifies this`lastEventId
      ensures current == old(lastEventId)
      ensures r.Ok? <==> old(lastEventId) == observed && !fails
      ensures lastEventId == if r.Ok? then id else old(lastEventId)
    {
      current := lastEventId;
      if lastEventId == observed && !fails {
        lastEventId := id;
        return Ok(id), current;
      }
      return Err("busy"), current;
    }

    /** `spurious` is how often the weak exchange fails for no reason. */
    method HandleBusEvent(event: BusEvent, spurious: nat)
      modifies this
      ensures View() == Offered(old(View()), event)
    {
      var observed := lastEventId;
      var left := spurious;
      while true
        invariant View() == old(View()) && observed == lastEventId
        decreases left
      {
        if event.id <= observed {
          return;
        }
        var exchanged, current := CompareExchange(observed, event.id, left > 0);
        if exchanged.Ok? { break; }
        observed := current;
        left := left - 1;
      }
      notifications := notifications + [event];
    }

    method HandleMessage(m: Message, spurious: nat)
      modifies this
      ensures View() == Handled(old(View()), m)
    {
      match m
      case Live(event) =>
        OfferOne(View(), event);
        HandleBusEvent(event, spurious);
      case Replay(session, events) =>
        var previous := eventSessionId;
        eventSessionId := session;
        if previous != session {
          lastEventId := 0;
        }
        ghost var resumed := View();
        for i := 0 to |events|
          invariant View() == OfferedAll(resumed, events[..i])
        {
          assert events[..i + 1][..i] == events[..i];
          HandleBusEvent(events[i], spurious);
        }
        assert events[..|events|] == events;
    }
  }

  // --------------------------- what gets queued ---------------------------

  lemma OfferOne(s: Inbox, event: BusEvent)
    ensures OfferedAll(s, [event]) == Offered(s, event)
  {
    assert [event][..0] == [];
    assert OfferedAll(s, [event][..0]) == s;
  }

  ghost predicate Increasing(events: seq<BusEvent>) {
    forall i, j :: 0 <= i < j < |events| ==> events[i].id < events[j].id
  }

  /** Strictly increasing ids above `floor`, up to `top`. */
  ghost predicate Fresh(queued: seq<BusEvent>, floor: nat, top: nat) {
    Increasing(queued) && forall i :: 0 <= i < |queued| ==> floor < queued[i].id <= top
  }

  function Max(a: nat, b: nat): nat {
    if a >= b then a else b
  }

  function Highest(floor: nat, events: seq<BusEvent>): nat
    decreases |events|
  {
    if events == [] then floor else Max(Highest(floor, events[..|events| - 1]), events[|events| - 1].id)
  }

  /** What one stretch of events adds to the queue. */
  ghost function Added(s: Inbox, after: Inbox): seq<BusEvent>
    requires |s.queue| <= |after.queue|
  {
    after.queue[|s.queue|..]
  }

  lemma {:induction false} OffersAreFresh(s: Inbox, events: seq<BusEvent>)
    ensures var r := OfferedAll(s, events);
            && s.queue <= r.queue && r.session == s.session
            && s.cursor <= r.cursor == Highest(s.cursor, events)
            && Fresh(Added(s, r), s.cursor, r.cursor)
            && (forall e :: e in Added(s, r) ==> e in events)
    decreases |events|
  {
    if events != [] {
      var n := |events| - 1;
      OffersAreFresh(s, events[..n]);
      var before := OfferedAll(s, events[..n]);
      var r := OfferedAll(s, events);
      assert events == events[..n] + [events[n]];
      if events[n].id > before.cursor {
        assert Added(s, r) == Added(s, before) + [events[n]];
        assert Fresh(Added(s, before), s.cursor, before.cursor);
      } else {
        assert r == before;
      }
    }
  }

  function HandledAll(s: Inbox, ms: seq<Message>): Inbox
    decreases |ms|
  {
    if ms == [] then s else Handled(HandledAll(s, ms[..|ms| - 1]), ms[|ms| - 1])
  }

  function AllEvents(ms: seq<Message>): seq<BusEvent>
    decreases |ms|
  {
    if ms == [] then [] else AllEvents(ms[..|ms| - 1]) + EventsOf(ms[|ms| - 1])
  }

  /** Every replay of this stretch is of the session already in force. */
  ghost predicate OneSession(s: Inbox, ms: seq<Message>) {
    forall i :: 0 <= i < |ms| ==> !ChangesSession(s, ms[i])
  }

  lemma {:induction false} OffersConcatenate(s: Inbox, a: seq<BusEvent>, b: seq<BusEvent>)
    ensures OfferedAll(s, a + b) == OfferedAll(OfferedAll(s, a), b)
    decreases |b|
  {
    if b == [] {
      assert a + b == a;
    } else {
      OffersConcatenate(s, a, b[..|b| - 1]);
      assert (a + b)[..|a + b| - 1] == a + b[..|b| - 1];
    }
  }

  lemma {:induction false} SessionIsOneStream(s: Inbox, ms: seq<Message>)
    requires OneSession(s, ms)
    ensures HandledAll(s, ms) == OfferedAll(s, AllEvents(ms))
    decreases |ms|
  {
    if ms != [] {
      var n := |ms| - 1;
      SessionIsOneStream(s, ms[..n]);
      OffersAreFresh(s, AllEvents(ms[..n]));
      OffersConcatenate(s, AllEvents(ms[..n]), EventsOf(ms[n]));
    }
  }

  /** While a session lasts, whatever replays and live events overlap: each id is queued at most
      once, in strictly increasing order, and never one the cursor had already passed. */
  lemma SessionQueuesOnce(s: Inbox, ms: seq<Message>)
    requires OneSession(s, ms)
    ensures var r := HandledAll(s, ms);
            s.queue <= r.queue && Fresh(Added(s, r), s.cursor, r.cursor)
  {
    SessionIsOneStream(s, ms);
    OffersAreFresh(s, AllEvents(ms));
  }

  /** A stream that never skips an id: each event is at most one past everything before it. */
  ghost predicate Gapless(floor: nat, events: seq<BusEvent>) {
    forall i :: 0 <= i < |events| ==> events[i].id <= Highest(floor, events[..i]) + 1
  }

  /** Nothing is lost either: over a gapless stream the queued ids are every id above the cursor. */
  lemma {:induction false} GaplessStreamIsDelivered(s: Inbox, events: seq<BusEvent>)
    requires Gapless(s.cursor, events)
    ensures var r := OfferedAll(s, events);
            && s.queue <= r.queue
            && s.cursor + |Added(s, r)| == r.cursor
            && forall i :: 0 <= i < |Added(s, r)| ==> Added(s, r)[i].id == s.cursor + 1 + i
    decreases |events|
  {
    OffersAreFresh(s, events);
    if events != [] {
      var n := |events| - 1;
      var front := events[..n];
      assert forall i :: 0 <= i < n ==> front[..i] == events[..i] && front[i] == events[i];
      GaplessStreamIsDelivered(s, front);
      OffersAreFresh(s, front);
      var before := OfferedAll(s, front);
      assert events[n].id <= before.cursor + 1;
      if events[n].id > before.cursor {
        assert Added(s, OfferedAll(s, events)) == Added(s, before) + [events[n]];
      } else {
        assert OfferedAll(s, events) == before;
      }
    }
  }

  /** A new session starts afresh: increasing ids from one up are all queued, however high the
      old session had counted. */
  lemma {:induction false} NewSessionIsDelivered(s: Inbox, session: nat, events: seq<BusEvent>)
    requires session != s.session
    requires forall i :: 0 <= i < |events| ==> events[i].id >= 1
    requires Increasing(events)
    ensures Handled(s, Replay(session, events)).queue == s.queue + events
    ensures Handled(s, Replay(session, events)).session == session
  {
    IncreasingIsDelivered(s.(session := session, cursor := 0), events);
  }

  lemma {:induction false} IncreasingIsDelivered(s: Inbox, events: seq<BusEvent>)
    requires forall i :: 0 <= i < |events| ==> events[i].id > s.cursor
    requires Increasing(events)
    ensures OfferedAll(s, events).queue == s.queue + events && OfferedAll(s, events).session == s.session
    ensures OfferedAll(s, events).cursor == if events == [] then s.cursor else events[|events| - 1].id
    decreases |events|
  {
    if events != [] {
      var n := |events| - 1;
      IncreasingIsDelivered(s, events[..n]);
      assert events == events[..n] + [events[n]];
    }
  }

  // --------------------------- whole connections ---------------------------

  /** One connection to a daemon: its replay, which is in the client's queue before any live event is
      forwarded, and then live events and further replays of the same daemon. */
  datatype Connection = Connection(session: nat, replay: seq<BusEvent>, later: seq<Message>)

  ghost predicate OfOneDaemon(c: Connection) {
    forall i :: 0 <= i < |c.later| && c.later[i].Replay? ==> c.later[i].session == c.session
  }

  function Connected(s: Inbox, c: Connection): Inbox {
    HandledAll(Handled(s, Replay(c.session, c.replay)), c.later)
  }

  /** The client after its first `n` connections. */
  function After(s: Inbox, conns: seq<Connection>, n: nat): Inbox
    requires n <= |conns|
  {
    if n == 0 then s else Connected(After(s, conns, n - 1), conns[n - 1])
  }

  ghost predicate OfDaemons(conns: seq<Connection>) {
    forall k :: 0 <= k < |conns| ==> OfOneDaemon(conns[k])
  }

  /** What the `i`th connection adds to the queue. */
  function QueuedBy(s: Inbox, conns: seq<Connection>, i: nat): seq<BusEvent>
    requires i < |conns|
  {
    var before, after := After(s, conns, i).queue, After(s, conns, i + 1).queue;
    if before <= after then after[|before|..] else []
  }

  /** The cursor a connection to this session starts from. */
  function Floor(s: Inbox, session: nat): nat {
    if session != s.session then 0 else s.cursor
  }

  /** A stretch that only adds to the queue, ids in increasing order above `floor`. */
  ghost predicate Grows(s: Inbox, r: Inbox, floor: nat) {
    s.queue <= r.queue && floor <= r.cursor && Fresh(Added(s, r), floor, r.cursor)
  }

  lemma GrowsOn(s: Inbox, m: Inbox, r: Inbox, floor: nat)
    requires Grows(s, m, floor) && Grows(m, r, m.cursor)
    ensures Grows(s, r, floor)
  {
    var a, b := Added(s, m), Added(m, r);
    assert Added(s, r) == a + b;
  }

  lemma ReplayGrows(s: Inbox, session: nat, events: seq<BusEvent>)
    ensures var r := Handled(s, Replay(session, events)); Grows(s, r, Floor(s, session)) && r.session == session
  {
    OffersAreFresh(s.(session := session, cursor := Floor(s, session)), events);
  }

  lemma RestGrows(s: Inbox, later: seq<Message>)
    requires OneSession(s, later)
    ensures var r := HandledAll(s, later); Grows(s, r, s.cursor) && r.session == s.session
  {
    SessionIsOneStream(s, later);
    OffersAreFresh(s, AllEvents(later));
  }

  lemma ConnectionGrows(s: Inbox, c: Connection)
    requires OfOneDaemon(c)
    ensures var r := Connected(s, c); Grows(s, r, Floor(s, c.session)) && r.session == c.session
  {
    var first := Handled(s, Replay(c.session, c.replay));
    ReplayGrows(s, c.session, c.replay);
    RestGrows(first, c.later);
    GrowsOn(s, first, Connected(s, c), Floor(s, c.session));
  }

  /** All connections from the `i`th to the `j`th are to one daemon. */
  ghost predicate SameDaemon(conns: seq<Connection>, i: nat, j: nat) {
    i <= j < |conns| && forall k :: i <= k <= j ==> conns[k].session == conns[i].session
  }

  lemma {:induction false} CursorRises(s: Inbox, conns: seq<Connection>, i: nat, j: nat)
    requires OfDaemons(conns) && SameDaemon(conns, i, j)
    ensures After(s, conns, i + 1).cursor <= After(s, conns, j + 1).cursor
    ensures After(s, conns, j + 1).session == conns[i].session
  {
    ConnectionGrows(After(s, conns, j), conns[j]);
    if i < j { CursorRises(s, conns, i, j - 1); }
  }

  /** What a connection queued lies above the cursor it started from, up to the one it left. */
  lemma QueuedByFits(s: Inbox, conns: seq<Connection>, i: nat)
    requires i < |conns| && OfOneDaemon(conns[i])
    ensures var before, after := After(s, conns, i), After(s, conns, i + 1);
            && after.queue == before.queue + QueuedBy(s, conns, i)
            && Fresh(QueuedBy(s, conns, i), Floor(before, conns[i].session), after.cursor)
  {
    ConnectionGrows(After(s, conns, i), conns[i]);
  }

  ghost predicate AllBelow(a: seq<BusEvent>, b: seq<BusEvent>) {
    forall p, q :: 0 <= p < |a| && 0 <= q < |b| ==> a[p].id < b[q].id
  }

  lemma {:induction false} LaterQueuesAbove(s: Inbox, conns: seq<Connection>, i: nat, j: nat)
    requires OfDaemons(conns) && i < j && SameDaemon(conns, i, j)
    ensures AllBelow(QueuedBy(s, conns, i), QueuedBy(s, conns, j))
  {
    var low, high := After(s, conns, i + 1), After(s, conns, j);
    QueuedByFits(s, conns, i);
    QueuedByFits(s, conns, j);
    CursorRises(s, conns, i, j - 1);
    assert Floor(high, conns[j].session) == high.cursor;
    FreshApart(QueuedBy(s, conns, i), Floor(After(s, conns, i), conns[i].session), low.cursor,
               QueuedBy(s, conns, j), high.cursor, After(s, conns, j + 1).cursor);
  }

  lemma FreshApart(a: seq<BusEvent>, floor: nat, middle: nat, b: seq<BusEvent>, above: nat, top: nat)
    requires Fresh(a, floor, middle) && Fresh(b, above, top) && middle <= above
    ensures AllBelow(a, b)
  {
  }

  /** Over any list of connections, and any replays and live events on each: a connection only adds
      to the queue, and all that the connections to one daemon add is in strictly increasing order of
      ids, within a connection and from one to a later one, so no id of it is queued twice. */
  lemma EachSessionQueuesOnce(s: Inbox, conns: seq<Connection>, i: nat, j: nat)
    requires OfDaemons(conns) && SameDaemon(conns, i, j)
    ensures After(s, conns, j + 1).queue == After(s, conns, j).queue + QueuedBy(s, conns, j)
    ensures Increasing(QueuedBy(s, conns, j))
    ensures i < j ==> AllBelow(QueuedBy(s, conns, i), QueuedBy(s, conns, j))
  {
    QueuedByFits(s, conns, j);
    if i < j { LaterQueuesAbove(s, conns, i, j); }
  }

  // ------------------------ why the replay comes first ------------------------

  ghost predicate NoIdTwice(queued: seq<BusEvent>) {
    forall i, j :: 0 <= i < j < |queued| ==> queued[i].id != queued[j].id
  }

  ghost predicate Holds(events: seq<BusEvent>, id: nat) {
    exists i :: 0 <= i < |events| && events[i].id == id
  }

  function Lives(events: seq<BusEvent>): seq<Message> {
    seq(|events|, i requires 0 <= i < |events| => Live(events[i]))
  }

  lemma {:induction false} LivesAreOffered(s: Inbox, events: seq<BusEvent>)
    ensures HandledAll(s, Lives(events)) == OfferedAll(s, events)
    decreases |events|
  {
    if events != [] {
      var n := |events| - 1;
      LivesAreOffered(s, events[..n]);
      assert Lives(events)[..n] == Lives(events[..n]);
      OfferOne(OfferedAll(s, events[..n]), events[n]);
    }
  }

  lemma {:induction false} AboveIsQueued(s: Inbox, events: seq<BusEvent>)
    requires Increasing(events)
    ensures var r := OfferedAll(s, events);
            && s.queue <= r.queue && (events != [] ==> r.cursor == Max(s.cursor, events[|events| - 1].id))
            && (events == [] ==> r == s)
            && forall i :: 0 <= i < |events| && events[i].id > s.cursor ==> events[i] in Added(s, r)
    decreases |events|
  {
    if events != [] {
      var n := |events| - 1;
      var before := OfferedAll(s, events[..n]);
      var r := OfferedAll(s, events);
      AboveIsQueued(s, events[..n]);
      assert forall i :: 0 <= i < n ==> events[..n][i] == events[i];
      assert Added(s, r) == Added(s, before) + if events[n].id > before.cursor then [events[n]] else [];
    }
  }

  lemma LiveQueuesAbove(s: Inbox, live: seq<BusEvent>, id: nat)
    requires Increasing(live)
    ensures s.queue <= OfferedAll(s, live).queue
    ensures Holds(Added(s, OfferedAll(s, live)), id) <==> id > s.cursor && Holds(live, id)
  {
    OffersAreFresh(s, live);
    AboveIsQueued(s, live);
    var added := Added(s, OfferedAll(s, live));
    if Holds(added, id) {
      var i :| 0 <= i < |added| && added[i].id == id;
      assert added[i] in live;
    }
    if id > s.cursor && Holds(live, id) {
      var i :| 0 <= i < |live| && live[i].id == id;
      assert live[i] in added;
    }
  }

  lemma TwiceIff(a: seq<BusEvent>, b: seq<BusEvent>)
    requires Increasing(a) && Increasing(b)
    ensures NoIdTwice(a + b) <==> forall id :: Holds(a, id) ==> !Holds(b, id)
  {
    if forall id :: Holds(a, id) ==> !Holds(b, id) {
      forall i, j | 0 <= i < j < |a + b| ensures (a + b)[i].id != (a + b)[j].id {
        if i < |a| <= j {
          assert Holds(a, a[i].id);
          assert b[j - |a|].id == (a + b)[j].id;
        }
      }
    } else {
      var id :| Holds(a, id) && Holds(b, id);
      var i :| 0 <= i < |a| && a[i].id == id;
      var j :| 0 <= j < |b| && b[j].id == id;
      assert (a + b)[i].id == (a + b)[|a| + j].id;
    }
  }

  /** Were live events to come ahead of the replay that announces their session, an id would be queued
      twice exactly when one above the cursor is also in the replay. */
  lemma OvertakingQueuesOnceIff(s: Inbox, live: seq<BusEvent>, session: nat, replay: seq<BusEvent>)
    requires session != s.session && Increasing(live) && Increasing(replay)
    requires forall i :: 0 <= i < |replay| ==> replay[i].id >= 1
    ensures var r := HandledAll(s, Lives(live) + [Replay(session, replay)]);
            && s.queue <= r.queue
            && (NoIdTwice(Added(s, r)) <==> forall id :: id > s.cursor && Holds(live, id) ==> !Holds(replay, id))
  {
    var before := OfferedAll(s, live);
    var r := HandledAll(s, Lives(live) + [Replay(session, replay)]);
    LivesThenReplay(s, live, session, replay);
    forall id: nat ensures Holds(Added(s, before), id) <==> id > s.cursor && Holds(live, id) {
      LiveQueuesAbove(s, live, id);
    }
    assert Added(s, r) == Added(s, before) + replay;
    TwiceIff(Added(s, before), replay);
  }

  lemma LivesThenReplay(s: Inbox, live: seq<BusEvent>, session: nat, replay: seq<BusEvent>)
    requires session != s.session && Increasing(live) && Increasing(replay)
    requires forall i :: 0 <= i < |replay| ==> replay[i].id >= 1
    ensures var before := OfferedAll(s, live);
            && s.queue <= before.queue && Increasing(Added(s, before))
            && HandledAll(s, Lives(live) + [Replay(session, replay)]).queue == before.queue + replay
  {
    var ms := Lives(live) + [Replay(session, replay)];
    assert ms[..|ms| - 1] == Lives(live);
    LivesAreOffered(s, live);
    OffersAreFresh(s, live);
    NewSessionIsDelivered(OfferedAll(s, live), session, replay);
  }

  // ---------------- concurrent callers of the compare-exchange loop ----------------

  datatype Pc = Start | Loaded(observed: nat) | Accepted | Rejected

  datatype Caller = Caller(id: nat, pc: Pc)

  /** The shared cursor, the callers, and the ids in the order they won the exchange. */
  datatype Race = Race(cursor: nat, callers: seq<Caller>, won: seq<nat>)

  datatype Move = Load(t: nat) | Reject(t: nat) | Exchange(t: nat) | ExchangeFails(t: nat)

  ghost predicate CanMove(s: Race, m: Move) {
    && m.t < |s.callers|
    && var c := s.callers[m.t];
       match m
       case Load(_) => c.pc == Start
       case Reject(_) => c.pc.Loaded? && c.id <= c.pc.observed
       case Exchange(_) => c.pc.Loaded? && c.id > c.pc.observed && c.pc.observed == s.cursor
       case ExchangeFails(_) => c.pc.Loaded? && c.id > c.pc.observed
  }

  ghost function Moved(s: Race, m: Move): Race
    requires CanMove(s, m)
  {
    var c := s.callers[m.t];
    match m
    case Load(t) => s.(callers := s.callers[t := c.(pc := Loaded(s.cursor))])
    case Reject(t) => s.(callers := s.callers[t := c.(pc := Rejected)])
    case Exchange(t) => Race(c.id, s.callers[t := c.(pc := Accepted)], s.won + [c.id])
    case ExchangeFails(t) => s.(callers := s.callers[t := c.(pc := Loaded(s.cursor))])
  }

  ghost predicate RaceInv(s: Race, floor: nat) {
    && floor <= s.cursor == (if s.won == [] then floor else s.won[|s.won| - 1])
    && (forall i :: 0 <= i < |s.won| ==> floor < s.won[i] <= s.cursor)
    && (forall i, j :: 0 <= i < j < |s.won| ==> s.won[i] < s.won[j])
    && (forall t :: 0 <= t < |s.callers| ==> CallerInv(s.callers[t], s))
    && (forall t, u :: 0 <= t < u < |s.callers| && s.callers[t].pc.Accepted? && s.callers[u].pc.Accepted? ==>
          s.callers[t].id != s.callers[u].id)
  }

  ghost predicate CallerInv(c: Caller, s: Race) {
    match c.pc
    case Start => true
    case Loaded(observed) => observed <= s.cursor
    case Accepted => c.id in s.won
    case Rejected => c.id <= s.cursor
  }

  lemma MoveKeeps(s: Race, m: Move, floor: nat)
    requires RaceInv(s, floor) && CanMove(s, m)
    ensures RaceInv(Moved(s, m), floor)
  {
    var s' := Moved(s, m);
    assert forall t :: 0 <= t < |s.callers| && t != m.t ==> s'.callers[t] == s.callers[t];
    assert forall t :: 0 <= t < |s.callers| ==> CallerInv(s.callers[t], s);
  }

  ghost predicate IsRace(trace: seq<Race>, moves: seq<Move>, floor: nat, ids: seq<nat>) {
    && |trace| == |moves| + 1
    && trace[0] == Race(floor, seq(|ids|, i requires 0 <= i < |ids| => Caller(ids[i], Start)), [])
    && forall i :: 0 <= i < |moves| ==> CanMove(trace[i], moves[i]) && trace[i + 1] == Moved(trace[i], moves[i])
  }

  ghost predicate Carries(s: Race, ids: seq<nat>) {
    |s.callers| == |ids| && forall t :: 0 <= t < |ids| ==> s.callers[t].id == ids[t]
  }

  lemma MoveCarries(s: Race, m: Move, ids: seq<nat>)
    requires Carries(s, ids) && CanMove(s, m)
    ensures Carries(Moved(s, m), ids)
  {
  }

  lemma {:induction false} RaceKeeps(trace: seq<Race>, moves: seq<Move>, floor: nat, ids: seq<nat>, i: nat)
    requires IsRace(trace, moves, floor, ids) && i < |trace|
    ensures RaceInv(trace[i], floor) && Carries(trace[i], ids)
  {
    if i > 0 {
      RaceKeeps(trace, moves, floor, ids, i - 1);
      MoveKeeps(trace[i - 1], moves[i - 1], floor);
      MoveCarries(trace[i - 1], moves[i - 1], ids);
    }
  }

  lemma RaceIsFair(s: Race, floor: nat, ids: seq<nat>)
    requires RaceInv(s, floor) && Carries(s, ids)
    ensures forall t, u :: 0 <= t < u < |ids| && s.callers[t].pc.Accepted? && s.callers[u].pc.Accepted? ==>
              ids[t] != ids[u]
    ensures forall j, k :: 0 <= j < k < |s.won| ==> s.won[j] < s.won[k]
    ensures (forall c <- s.callers :: c.pc.Accepted? || c.pc.Rejected?) ==> forall c <- s.callers :: c.id <= s.cursor
  {
    forall t | 0 <= t < |s.callers| ensures CallerInv(s.callers[t], s) {}
  }

  /** No caller is ever stuck: each that has not finished has exactly one move next, or may fail its exchange
      and look again; one whose id the cursor it saw is at gives up, one above it wins while that is still the
      cursor. */
  lemma EveryCallerGoesOn(s: Race, t: nat)
    requires t < |s.callers|
    ensures s.callers[t].pc.Start? ==>
              CanMove(s, Load(t)) && Moved(s, Load(t)).callers[t].pc == Loaded(s.cursor)
    ensures s.callers[t].pc.Loaded? && s.callers[t].id <= s.callers[t].pc.observed ==>
              CanMove(s, Reject(t)) && Moved(s, Reject(t)).callers[t].pc == Rejected
              && !CanMove(s, Exchange(t)) && !CanMove(s, ExchangeFails(t))
    ensures s.callers[t].pc.Loaded? && s.callers[t].id > s.callers[t].pc.observed ==>
              && !CanMove(s, Reject(t))
              && CanMove(s, ExchangeFails(t)) && Moved(s, ExchangeFails(t)).callers[t].pc == Loaded(s.cursor)
              && (CanMove(s, Exchange(t)) <==> s.cursor == s.callers[t].pc.observed)
              && (CanMove(s, Exchange(t)) ==>
                    var r := Moved(s, Exchange(t));
                    r.callers[t].pc == Accepted && r.cursor == s.callers[t].id && r.won == s.won + [s.callers[t].id])
  {
  }

  /** Whatever the interleaving: accepted ids leave the race in strictly increasing order, two
      callers never both accept one id, and once all are done the cursor covers every id. */
  lemma RaceAcceptsOnce(trace: seq<Race>, moves: seq<Move>, floor: nat, ids: seq<nat>, i: nat)
    requires IsRace(trace, moves, floor, ids) && i < |trace|
    ensures var s := trace[i];
            && Carries(s, ids)
            && (forall t, u :: 0 <= t < u < |ids| && s.callers[t].pc.Accepted? && s.callers[u].pc.Accepted? ==>
                  ids[t] != ids[u])
            && (forall j, k :: 0 <= j < k < |s.won| ==> s.won[j] < s.won[k])
            && ((forall c <- s.callers :: c.pc.Accepted? || c.pc.Rejected?) ==>
                  forall c <- s.callers :: c.id <= s.cursor)
  {
    RaceKeeps(trace, moves, floor, ids, i);
    RaceIsFair(trace[i], floor, ids);
  }
}
