/** One daemon's events on their way to one client: the ring they are kept in, the broadcast that
    wakes the client's forwarder, the client's queue of frames, and its cursor at the end. */
module EventRelay {
  import opened Wrappers
  import opened EventCursor

  /** How many events the ring and the broadcast channel keep. */
  const RING := 256

  /** A connection opens with a replay, after which its forwarder runs. The forwarder ends for good when
      a frame it waits to queue is not taken in time, while the connection itself lives on. */
  datatype Phase = Opening | Forwarding | GivenUp

  /** The next broadcast to receive, how far the connection is, and the frames queued and not yet
      handled. */
  datatype Link = Link(next: nat, phase: Phase, frames: seq<Message>)

  /** What was published, in order of ids, which count from one; which ids have been broadcast, in the
      order of the broadcasts; the connection and the client. */
  datatype Relay = Relay(published: seq<string>, sent: seq<nat>, link: Option<Link>, inbox: Inbox)

  datatype Event =
    | Publish(text: string)
    | Send(id: nat)
    | Connect
    | Greet
    | Forward(full: bool)
    | GiveUp
    | Receive
    | Disconnect

  /** The published events with ids above `low` up to `high`. */
  function Slice(published: seq<string>, low: nat, high: nat): seq<BusEvent>
    requires high <= |published|
  {
    if low >= high then [] else Slice(published, low, high - 1) + [BusEvent(high, published[high - 1])]
  }

  /** What the ring has lost. */
  function Evicted(published: seq<string>): nat {
    if |published| > RING then |published| - RING else 0
  }

  /** What the ring holds above a cursor. */
  function Replayed(session: nat, published: seq<string>, cursor: nat): Message {
    Replay(session, Slice(published, Max(Evicted(published), cursor), |published|))
  }

  /** How far a client has got with this session. */
  function Caught(session: nat, x: Inbox): nat {
    if x.session == session then x.cursor else 0
  }

  ghost predicate CanDo(s: Relay, e: Event) {
    match e
    case Publish(_) => true
    case Send(id) => 1 <= id <= |s.published| && id !in s.sent
    case Connect => s.link.None?
    case Greet => s.link.Some? && s.link.value.phase.Opening?
    case Forward(_) =>
      && s.link.Some? && s.link.value.phase.Forwarding? && s.link.value.next < |s.sent|
      && 1 <= s.sent[s.link.value.next] <= |s.published|
    case GiveUp => s.link.Some? && s.link.value.phase.Forwarding?
    case Receive => s.link.Some? && s.link.value.frames != []
    case Disconnect => s.link.Some?
  }

  /** The frame the forwarder queues, and where it goes on receiving. A receiver that lagged goes on at
      the oldest broadcast retained, and a full queue has the frame replaced: both by a replay. */
  ghost function Forwarded(session: nat, s: Relay, full: bool): (Message, nat)
    requires CanDo(s, Forward(full))
  {
    var next := s.link.value.next;
    if |s.sent| - next > RING then (Replayed(session, s.published, 0), |s.sent| - RING)
    else if full then (Replayed(session, s.published, 0), next + 1)
    else (Live(BusEvent(s.sent[next], s.published[s.sent[next] - 1])), next + 1)
  }

  ghost function Done(session: nat, s: Relay, e: Event): Relay
    requires CanDo(s, e)
  {
    match e
    case Publish(text) => s.(published := s.published + [text])
    case Send(id) => s.(sent := s.sent + [id])
    case Connect => s.(link := Some(Link(|s.sent|, Opening, [])))
    case Greet =>
      var m := Replayed(session, s.published, Caught(session, s.inbox));
      s.(link := Some(s.link.value.(phase := Forwarding, frames := s.link.value.frames + [m])))
    case Forward(full) =>
      var (m, next) := Forwarded(session, s, full);
      s.(link := Some(s.link.value.(next := next, frames := s.link.value.frames + [m])))
    case GiveUp => s.(link := Some(s.link.value.(phase := GivenUp)))
    case Receive =>
      var frames := s.link.value.frames;
      s.(link := Some(s.link.value.(frames := frames[1..])), inbox := Handled(s.inbox, frames[0]))
    case Disconnect => s.(link := None)
  }

  // ------------------------------ what a frame does ------------------------------

  lemma {:induction false} SliceLength(published: seq<string>, low: nat, high: nat)
    requires high <= |published|
    ensures |Slice(published, low, high)| == if low < high then high - low else 0
    ensures forall i :: 0 <= i < |Slice(published, low, high)| ==>
              Slice(published, low, high)[i] == BusEvent(low + 1 + i, published[low + i])
  {
    if low < high { SliceLength(published, low, high - 1); }
  }

  lemma SlicesJoin(published: seq<string>, low: nat, middle: nat, high: nat)
    requires low <= middle <= high <= |published|
    ensures Slice(published, low, middle) + Slice(published, middle, high) == Slice(published, low, high)
  {
    SliceLength(published, low, middle);
    SliceLength(published, middle, high);
    SliceLength(published, low, high);
  }

  lemma OfferedLast(x: Inbox, events: seq<BusEvent>, e: BusEvent)
    ensures OfferedAll(x, events + [e]) == Offered(OfferedAll(x, events), e)
  {
    assert (events + [e])[..|events|] == events;
  }

  /** What is left of a client once it has been offered a stretch of the stream: it gains what lies
      above both the start of the stretch and its cursor. */
  ghost function Advanced(x: Inbox, published: seq<string>, low: nat, high: nat): Inbox
    requires high <= |published|
  {
    var from := Max(low, x.cursor);
    if high <= from then x else x.(cursor := high, queue := x.queue + Slice(published, from, high))
  }

  lemma AdvancesOnce(x: Inbox, published: seq<string>, low: nat, high: nat)
    requires low <= high < |published|
    ensures Offered(Advanced(x, published, low, high), BusEvent(high + 1, published[high]))
            == Advanced(x, published, low, high + 1)
  {
    var from := Max(low, x.cursor);
    var e := BusEvent(high + 1, published[high]);
    if from < high {
      assert x.queue + Slice(published, from, high) + [e] == x.queue + (Slice(published, from, high) + [e]);
    } else if from == high {
      assert Slice(published, from, high + 1) == [] + [e];
    }
  }

  lemma {:induction false} SliceIsOffered(x: Inbox, published: seq<string>, low: nat, high: nat)
    requires high <= |published|
    ensures OfferedAll(x, Slice(published, low, high)) == Advanced(x, published, low, high)
  {
    if low < high {
      SliceIsOffered(x, published, low, high - 1);
      OfferedLast(x, Slice(published, low, high - 1), BusEvent(high, published[high - 1]));
      AdvancesOnce(x, published, low, high - 1);
    }
  }

  /** A client that has everything up to its cursor, once and in order, behind what it began with. */
  ghost predicate Whole(session: nat, start: seq<BusEvent>, published: seq<string>, x: Inbox) {
    && Caught(session, x) <= |published|
    && x.queue == start + Slice(published, 0, Caught(session, x))
  }

  /** A frame cut from the stream: a replay of a stretch, or one live event. */
  ghost predicate Cut(session: nat, published: seq<string>, m: Message, low: nat, high: nat) {
    && low <= high <= |published|
    && (m == Replay(session, Slice(published, low, high))
        || (high == low + 1 && m == Live(BusEvent(high, published[low]))))
  }

  lemma CutIsHandled(session: nat, published: seq<string>, x: Inbox, m: Message, low: nat, high: nat)
    requires Cut(session, published, m, low, high) && (m.Live? ==> x.session == session)
    ensures var c := Caught(session, x);
            Handled(x, m) == if high <= Max(low, c) then x.(session := session, cursor := c)
                             else Inbox(high, session, x.queue + Slice(published, Max(low, c), high))
  {
    var resumed := x.(session := session, cursor := Caught(session, x));
    SliceIsOffered(resumed, published, low, high);
    if m.Live? {
      assert Slice(published, low, high) == [BusEvent(high, published[low])] by {
        SliceLength(published, low, high);
      }
    }
  }

  lemma NoGapJoins(start: seq<BusEvent>, published: seq<string>, c: nat, high: nat)
    requires c <= high <= |published|
    ensures start + Slice(published, 0, c) + Slice(published, c, high) == start + Slice(published, 0, high)
  {
    SlicesJoin(published, 0, c, high);
    assert start + Slice(published, 0, c) + Slice(published, c, high)
        == start + (Slice(published, 0, c) + Slice(published, c, high));
  }

  lemma GapShows(start: seq<BusEvent>, published: seq<string>, c: nat, low: nat, high: nat)
    requires c < low < high <= |published|
    ensures start + Slice(published, 0, c) + Slice(published, low, high) != start + Slice(published, 0, high)
  {
    SliceLength(published, 0, c);
    SliceLength(published, low, high);
    SliceLength(published, 0, high);
    assert |start + Slice(published, 0, c) + Slice(published, low, high)| == |start| + c + (high - low);
  }

  /** A frame leaves a whole client whole exactly when it brings nothing or starts no later than where
      the client is. */
  lemma FrameKeepsWholeIff(session: nat, start: seq<BusEvent>, published: seq<string>, x: Inbox, m: Message,
                           low: nat, high: nat)
    requires Cut(session, published, m, low, high) && (m.Live? ==> x.session == session)
    requires Whole(session, start, published, x)
    ensures Whole(session, start, published, Handled(x, m)) <==> low == high || low <= Caught(session, x)
    ensures Caught(session, Handled(x, m)) == if low < high then Max(Caught(session, x), high) else Caught(session, x)
    ensures Handled(x, m).session == session
  {
    var c := Caught(session, x);
    CutIsHandled(session, published, x, m, low, high);
    if low < high && high > c {
      if low <= c { NoGapJoins(start, published, c, high); } else { GapShows(start, published, c, low, high); }
    }
  }

  // ------------------------------ whole runs ------------------------------

  ghost function Frames(s: Relay): seq<Message> {
    if s.link.Some? then s.link.value.frames else []
  }

  /** The client once it has handled every frame queued for it. */
  ghost function End(s: Relay): Inbox {
    HandledAll(s.inbox, Frames(s))
  }

  /** Now and after any number of the frames queued, the client is whole. */
  ghost predicate AllWhole(session: nat, start: seq<BusEvent>, s: Relay) {
    forall k: nat :: k <= |Frames(s)| ==> Whole(session, start, s.published, HandledAll(s.inbox, Frames(s)[..k]))
  }

  /** The opening replay comes first, so the client is in the session before any live event. */
  ghost predicate InSession(session: nat, s: Relay) {
    s.link.Some? ==> if s.link.value.phase.Opening? then s.link.value.frames == [] else End(s).session == session
  }

  ghost predicate Lags(s: Relay) {
    s.link.Some? && |s.sent| - s.link.value.next > 256
  }

  /** Nothing is passed over: the ring still reaches back to where a replay finds the client, and a
      live event is at most the next one. */
  ghost predicate Reaches(session: nat, s: Relay, e: Event)
    requires CanDo(s, e)
  {
    match e
    case Greet => |s.published| <= Caught(session, End(s)) + 256
    case Forward(full) =>
      if full || Lags(s) then |s.published| <= Caught(session, End(s)) + 256
      else s.sent[s.link.value.next] <= Caught(session, End(s)) + 1
    case _ => true
  }

  lemma {:induction false} HandledFirst(x: Inbox, ms: seq<Message>)
    requires ms != []
    ensures HandledAll(x, ms) == HandledAll(Handled(x, ms[0]), ms[1..])
    decreases |ms|
  {
    var n := |ms| - 1;
    if n == 0 {
      assert ms[..0] == [] && ms[1..] == [];
    } else {
      HandledFirst(x, ms[..n]);
      assert ms[..n][0] == ms[0] && ms[..n][1..] == ms[1..][..n - 1];
    }
  }

  lemma StillWhole(session: nat, start: seq<BusEvent>, published: seq<string>, text: string, x: Inbox)
    requires Whole(session, start, published, x)
    ensures Whole(session, start, published + [text], x)
  {
    var c := Caught(session, x);
    SliceLength(published, 0, c);
    SliceLength(published + [text], 0, c);
    assert Slice(published, 0, c) == Slice(published + [text], 0, c);
  }

  lemma PublishKeeps(session: nat, start: seq<BusEvent>, s: Relay, text: string)
    requires AllWhole(session, start, s)
    ensures AllWhole(session, start, Done(session, s, Publish(text)))
  {
    var s' := Done(session, s, Publish(text));
    assert Frames(s') == Frames(s) && s'.published == s.published + [text];
    forall k: nat | k <= |Frames(s')|
      ensures Whole(session, start, s'.published, HandledAll(s'.inbox, Frames(s')[..k]))
    {
      StillWhole(session, start, s.published, text, HandledAll(s.inbox, Frames(s)[..k]));
    }
  }

  lemma ReceiveKeeps(session: nat, start: seq<BusEvent>, s: Relay)
    requires CanDo(s, Receive)
    ensures AllWhole(session, start, s) ==> AllWhole(session, start, Done(session, s, Receive))
    ensures End(Done(session, s, Receive)) == End(s)
  {
    var frames, s' := Frames(s), Done(session, s, Receive);
    HandledFirst(s.inbox, frames);
    if AllWhole(session, start, s) {
      forall k: nat | k <= |Frames(s')|
        ensures Whole(session, start, s'.published, HandledAll(s'.inbox, Frames(s')[..k]))
      {
        HandledFirst(s.inbox, frames[..k + 1]);
        assert frames[..k + 1][1..] == frames[1..][..k];
        assert Whole(session, start, s.published, HandledAll(s.inbox, frames[..k + 1]));
      }
    }
  }

  lemma LinkKeeps(session: nat, start: seq<BusEvent>, s: Relay, e: Event)
    requires CanDo(s, e) && (e.Connect? || e.Disconnect? || e.Send? || e.GiveUp?) && AllWhole(session, start, s)
    ensures AllWhole(session, start, Done(session, s, e))
  {
    assert Frames(s)[..0] == [];
    assert Whole(session, start, s.published, HandledAll(s.inbox, Frames(s)[..0]));
    var s' := Done(session, s, e);
    if e.Send? || e.GiveUp? {
      assert Frames(s') == Frames(s);
    } else {
      assert Frames(s') == [];
      forall k: nat | k <= 0 ensures Whole(session, start, s'.published, HandledAll(s'.inbox, Frames(s')[..k])) {
        assert Frames(s')[..k] == Frames(s)[..0];
      }
    }
  }

  lemma QueuedKeepsIff(session: nat, start: seq<BusEvent>, s: Relay, s': Relay, m: Message)
    requires AllWhole(session, start, s) && s'.inbox == s.inbox && s'.published == s.published
    requires Frames(s') == Frames(s) + [m]
    ensures AllWhole(session, start, s') <==> Whole(session, start, s.published, Handled(End(s), m))
    ensures End(s') == Handled(End(s), m)
  {
    var frames, n := Frames(s), |Frames(s)|;
    assert Frames(s')[..n + 1] == Frames(s') && Frames(s')[..n] == frames;
    forall k: nat | k <= n ensures Frames(s')[..k] == frames[..k] {}
    if AllWhole(session, start, s') {
      assert Whole(session, start, s.published, HandledAll(s'.inbox, Frames(s')[..n + 1]));
    }
  }

  lemma EndIsWhole(session: nat, start: seq<BusEvent>, s: Relay)
    requires AllWhole(session, start, s)
    ensures Whole(session, start, s.published, End(s))
  {
    assert Frames(s)[..|Frames(s)|] == Frames(s);
  }

  lemma GreetKeepsIff(session: nat, start: seq<BusEvent>, s: Relay)
    requires CanDo(s, Greet) && AllWhole(session, start, s) && InSession(session, s)
    ensures var s' := Done(session, s, Greet);
            && (AllWhole(session, start, s') <==> Reaches(session, s, Greet)) && End(s').session == session
            && Caught(session, End(s')) == |s.published|
  {
    var c := Caught(session, s.inbox);
    var m := Replayed(session, s.published, c);
    EndIsWhole(session, start, s);
    FrameKeepsWholeIff(session, start, s.published, End(s), m, Max(Evicted(s.published), c), |s.published|);
    QueuedKeepsIff(session, start, s, Done(session, s, Greet), m);
  }

  lemma ForwardKeepsIff(session: nat, start: seq<BusEvent>, s: Relay, full: bool)
    requires CanDo(s, Forward(full)) && AllWhole(session, start, s) && InSession(session, s)
    ensures var s' := Done(session, s, Forward(full));
            && (AllWhole(session, start, s') <==> Reaches(session, s, Forward(full))) && End(s').session == session
            && Caught(session, End(s')) >= if full || Lags(s) then |s.published| else s.sent[s.link.value.next]
  {
    if full || Lags(s) { ReplayKeepsIff(session, start, s, full); } else { LiveKeepsIff(session, start, s); }
  }

  lemma ReplayKeepsIff(session: nat, start: seq<BusEvent>, s: Relay, full: bool)
    requires CanDo(s, Forward(full)) && AllWhole(session, start, s) && InSession(session, s) && (full || Lags(s))
    ensures var s' := Done(session, s, Forward(full));
            && (AllWhole(session, start, s') <==> |s.published| <= Caught(session, End(s)) + 256)
            && End(s').session == session && Caught(session, End(s')) >= |s.published|
  {
    var m := Replayed(session, s.published, 0);
    EndIsWhole(session, start, s);
    QueuedKeepsIff(session, start, s, Done(session, s, Forward(full)), m);
    FrameKeepsWholeIff(session, start, s.published, End(s), m, Evicted(s.published), |s.published|);
  }

  lemma LiveKeepsIff(session: nat, start: seq<BusEvent>, s: Relay)
    requires CanDo(s, Forward(false)) && AllWhole(session, start, s) && InSession(session, s) && !Lags(s)
    ensures var (s', id) := (Done(session, s, Forward(false)), s.sent[s.link.value.next]);
            && (AllWhole(session, start, s') <==> id <= Caught(session, End(s)) + 1)
            && End(s').session == session && Caught(session, End(s')) >= id
  {
    var id := s.sent[s.link.value.next];
    var m := Live(BusEvent(id, s.published[id - 1]));
    EndIsWhole(session, start, s);
    QueuedKeepsIff(session, start, s, Done(session, s, Forward(false)), m);
    FrameKeepsWholeIff(session, start, s.published, End(s), m, id - 1, id);
  }

  /** From a whole client, a step leaves it whole, now and after the frames queued, exactly when it
      passes nothing over. */
  lemma StepKeepsIff(session: nat, start: seq<BusEvent>, s: Relay, e: Event)
    requires CanDo(s, e) && AllWhole(session, start, s) && InSession(session, s)
    ensures AllWhole(session, start, Done(session, s, e)) <==> Reaches(session, s, e)
    ensures InSession(session, Done(session, s, e))
  {
    match e
    case Publish(text) => PublishKeeps(session, start, s, text);
    case Greet => GreetKeepsIff(session, start, s);
    case Forward(full) => ForwardKeepsIff(session, start, s, full);
    case Receive => ReceiveKeeps(session, start, s);
    case _ => LinkKeeps(session, start, s, e);
  }

  /** A daemon that has published nothing, and a client of another session. */
  ghost predicate Begins(session: nat, start: seq<BusEvent>, s: Relay) {
    s.published == [] && s.sent == [] && s.link.None? && s.inbox.session != session && s.inbox.queue == start
  }

  ghost predicate IsRelayRun(session: nat, start: seq<BusEvent>, trace: seq<Relay>, events: seq<Event>) {
    && |trace| == |events| + 1 && Begins(session, start, trace[0])
    && forall i :: 0 <= i < |events| ==>
         CanDo(trace[i], events[i]) && trace[i + 1] == Done(session, trace[i], events[i])
  }

  /** Whole, and in the session as soon as it has been greeted. */
  ghost predicate Fine(session: nat, start: seq<BusEvent>, s: Relay) {
    AllWhole(session, start, s) && InSession(session, s)
  }

  lemma {:induction false} FineWhile(fine: nat -> bool, reaches: nat -> bool, n: nat)
    requires fine(0) && forall i: nat :: i < n && fine(i) ==> (fine(i + 1) <==> reaches(i))
    ensures (forall i: nat :: i <= n ==> fine(i)) <==> (forall i: nat :: i < n ==> reaches(i))
  {
    if n > 0 {
      FineWhile(fine, reaches, n - 1);
      if forall i: nat :: i <= n ==> fine(i) {
        assert fine(n - 1 + 1) <==> reaches(n - 1);
        forall i: nat | i < n ensures reaches(i) {}
      }
      if forall i: nat :: i < n ==> reaches(i) {
        assert fine(n - 1 + 1) <==> reaches(n - 1);
        forall i: nat | i <= n ensures fine(i) {}
      }
    }
  }

  /** Over any run, connections and lost connections, lags and full queues included: the client has at
      every moment every event up to its cursor, once and in order, and will after the frames queued,
      exactly when no step has passed an event over. */
  lemma WholeIff(session: nat, start: seq<BusEvent>, trace: seq<Relay>, events: seq<Event>)
    requires IsRelayRun(session, start, trace, events)
    ensures (forall i: nat :: i < |trace| ==> Fine(session, start, trace[i])) <==>
            (forall i: nat :: i < |events| ==> Reaches(session, trace[i], events[i]))
  {
    var fine := (i: nat) => i < |trace| && Fine(session, start, trace[i]);
    var reaches := (i: nat) => i < |events| && CanDo(trace[i], events[i]) && Reaches(session, trace[i], events[i]);
    BeginsFine(session, start, trace[0]);
    forall i: nat | i < |events| && fine(i) ensures fine(i + 1) <==> reaches(i) {
      StepKeepsIff(session, start, trace[i], events[i]);
    }
    FineWhile(fine, reaches, |events|);
    assert forall i: nat :: i < |trace| ==> (fine(i) <==> Fine(session, start, trace[i]));
    assert forall i: nat :: i < |events| ==> (reaches(i) <==> Reaches(session, trace[i], events[i]));
  }

  lemma BeginsFine(session: nat, start: seq<BusEvent>, s: Relay)
    requires Begins(session, start, s)
    ensures Fine(session, start, s)
  {
    assert Frames(s) == [] && start + [] == start;
  }

  /** Every broadcast so far came in the order of the ids. */
  ghost predicate InOrder(s: Relay) {
    |s.sent| <= |s.published| && forall i :: 0 <= i < |s.sent| ==> s.sent[i] == i + 1
  }

  /** Once it has been greeted the client is, or will be, past all that was received for it. */
  ghost predicate KeepsUp(session: nat, s: Relay) {
    s.link.Some? ==>
      && s.link.value.next <= |s.sent|
      && (!s.link.value.phase.Opening? ==> s.link.value.next <= Caught(session, End(s)))
  }

  /** While broadcasts come in order a live event is never ahead: only a replay can pass events over,
      when the ring no longer reaches back. */
  lemma InOrderKeepsUp(session: nat, start: seq<BusEvent>, s: Relay, e: Event)
    requires CanDo(s, e) && AllWhole(session, start, s) && InSession(session, s) && InOrder(s) && KeepsUp(session, s)
    requires InOrder(Done(session, s, e))
    ensures KeepsUp(session, Done(session, s, e))
    ensures e.Forward? && !e.full && !Lags(s) ==> Reaches(session, s, e)
  {
    match e
    case Greet => GreetKeepsIff(session, start, s);
    case Forward(full) => ForwardKeepsIff(session, start, s, full);
    case Receive => ReceiveKeeps(session, start, s);
    case _ => assert Frames(Done(session, s, e)) == Frames(s) || e.Connect? || e.Disconnect?;
  }

  /** The ring reaches back to where every replay of the run finds the client. */
  ghost predicate RingReaches(session: nat, trace: seq<Relay>, events: seq<Event>) {
    forall i :: 0 <= i < |events| < |trace| && CanDo(trace[i], events[i])
                && (events[i].Greet? || (events[i].Forward? && (events[i].full || Lags(trace[i])))) ==>
      |trace[i].published| <= Caught(session, End(trace[i])) + 256
  }

  lemma {:induction false} InOrderRunIsWhole(session: nat, start: seq<BusEvent>, trace: seq<Relay>, events: seq<Event>,
                                             n: nat)
    requires IsRelayRun(session, start, trace, events) && n < |trace| && RingReaches(session, trace, events)
    requires forall i :: 0 <= i <= n ==> InOrder(trace[i])
    ensures AllWhole(session, start, trace[n]) && InSession(session, trace[n]) && KeepsUp(session, trace[n])
  {
    if n == 0 {
      BeginsFine(session, start, trace[0]);
    } else {
      InOrderRunIsWhole(session, start, trace, events, n - 1);
      assert CanDo(trace[n - 1], events[n - 1]) && trace[n] == Done(session, trace[n - 1], events[n - 1]);
      assert InOrder(trace[n - 1]) && InOrder(trace[n]);
      InOrderKeepsUp(session, start, trace[n - 1], events[n - 1]);
      StepKeepsIff(session, start, trace[n - 1], events[n - 1]);
    }
  }

  /** With broadcasts in order and a ring that reaches back, a client that is connected, whose forwarder
      still runs and which has nothing left to receive or handle has every event published, exactly once
      and in order. */
  lemma EveryEventOnce(session: nat, start: seq<BusEvent>, trace: seq<Relay>, events: seq<Event>, n: nat)
    requires IsRelayRun(session, start, trace, events) && n < |trace| && RingReaches(session, trace, events)
    requires forall i :: 0 <= i <= n ==> InOrder(trace[i])
    requires trace[n].link.Some? && trace[n].link.value.phase.Forwarding? && trace[n].link.value.frames == []
    requires trace[n].link.value.next == |trace[n].sent| == |trace[n].published|
    ensures trace[n].inbox.queue == start + Slice(trace[n].published, 0, |trace[n].published|)
  {
    InOrderRunIsWhole(session, start, trace, events, n);
    EndIsWhole(session, start, trace[n]);
  }

  // ------------------------ what the frames hold ------------------------

  /** Events from just above `low` up to `high`, each once and in order, with their texts. */
  ghost predicate AreBetween(events: seq<BusEvent>, published: seq<string>, low: nat, high: nat) {
    && high <= |published| && |events| == (if low < high then high - low else 0)
    && forall i :: 0 <= i < |events| ==> events[i].id == low + 1 + i && events[i].notification == published[low + i]
  }

  /** One more frame is queued, and nothing else happens but to the link. */
  ghost predicate Sends(s: Relay, s': Relay, m: Message) {
    && s.link.Some? && s'.link.Some? && s'.link.value.frames == s.link.value.frames + [m]
    && s'.(link := None) == s.(link := None) && s'.link.value.phase.Forwarding?
  }

  /** The greeting replays what the last 256 events hold above the client's cursor, if that is of this
      session. */
  lemma GreetingIsExact(session: nat, s: Relay) returns (events: seq<BusEvent>)
    requires CanDo(s, Greet)
    ensures var s' := Done(session, s, Greet);
            var known := if s.inbox.session == session then s.inbox.cursor else 0;
            && Sends(s, s', Replay(session, events)) && s'.link.value.next == s.link.value.next
            && AreBetween(events, s.published,
                          if |s.published| > known + 256 then |s.published| - 256 else known, |s.published|)
  {
    var low := Max(Evicted(s.published), Caught(session, s.inbox));
    events := Slice(s.published, low, |s.published|);
    SliceLength(s.published, low, |s.published|);
  }

  /** A full queue, or a lag past 256 broadcasts, replays the last 256 events whole, and a lagging forwarder
      goes on 256 broadcasts from the end; otherwise the next broadcast is sent on. */
  lemma ForwardIsExact(session: nat, s: Relay, full: bool) returns (events: seq<BusEvent>)
    requires CanDo(s, Forward(full))
    ensures var (s', next) := (Done(session, s, Forward(full)), s.link.value.next);
            && AreBetween(events, s.published,
                          if |s.published| > 256 then |s.published| - 256 else 0, |s.published|)
            && s'.link.Some?
            && s'.link.value.next == (if |s.sent| - next > 256 then |s.sent| - 256 else next + 1)
            && Sends(s, s', if full || |s.sent| - next > 256 then Replay(session, events)
                            else Live(BusEvent(s.sent[next], s.published[s.sent[next] - 1])))
  {
    events := Slice(s.published, Evicted(s.published), |s.published|);
    SliceLength(s.published, Evicted(s.published), |s.published|);
  }

  /** A connection is sent on only what is broadcast after it subscribed. */
  lemma {:induction false} SubscribesFromNow(session: nat, start: seq<BusEvent>, trace: seq<Relay>, events: seq<Event>,
                                             i: nat, j: nat)
    requires IsRelayRun(session, start, trace, events) && i < j < |trace| && events[i].Connect?
    requires forall k :: i < k < j ==> !events[k].Disconnect?
    ensures trace[j].link.Some? && trace[j].link.value.next >= |trace[i].sent|
    ensures j == i + 1 ==> trace[j].link.value == Link(|trace[i].sent|, Opening, [])
    ensures |trace[j].sent| >= |trace[i].sent|
    decreases j
  {
    assert CanDo(trace[j - 1], events[j - 1]) && trace[j] == Done(session, trace[j - 1], events[j - 1]);
    if j > i + 1 {
      SubscribesFromNow(session, start, trace, events, i, j - 1);
    }
  }

  lemma {:induction false} SentArePublished(session: nat, start: seq<BusEvent>, trace: seq<Relay>, events: seq<Event>,
                                            n: nat)
    requires IsRelayRun(session, start, trace, events) && n < |trace|
    ensures forall i :: 0 <= i < |trace[n].sent| ==> 1 <= trace[n].sent[i] <= |trace[n].published|
  {
    if n > 0 {
      SentArePublished(session, start, trace, events, n - 1);
      assert CanDo(trace[n - 1], events[n - 1]) && trace[n] == Done(session, trace[n - 1], events[n - 1]);
    }
  }

  /** The relay is never stuck: what is published and not yet broadcast can be, what is broadcast forwarded,
      with room in the queue or without, and what is queued received. */
  lemma RelayGoesOn(session: nat, start: seq<BusEvent>, trace: seq<Relay>, events: seq<Event>, n: nat, full: bool)
    requires IsRelayRun(session, start, trace, events) && n < |trace|
    ensures var s := trace[n];
            && (forall text :: CanDo(s, Publish(text)))
            && (forall id: nat :: CanDo(s, Send(id)) <==> 1 <= id <= |s.published| && id !in s.sent)
            && (CanDo(s, Connect) <==> s.link.None?) && (CanDo(s, Disconnect) <==> s.link.Some?)
            && (CanDo(s, Greet) <==> s.link.Some? && s.link.value.phase.Opening?)
            && (CanDo(s, Forward(full)) <==>
                  s.link.Some? && s.link.value.phase.Forwarding? && s.link.value.next < |s.sent|)
            && (CanDo(s, Receive) <==> s.link.Some? && s.link.value.frames != [])
  {
    SentArePublished(session, start, trace, events, n);
  }

  // ------------------------ a forwarder that gave up ------------------------

  lemma DeafStep(session: nat, s: Relay, e: Event)
    requires CanDo(s, e) && !e.Disconnect? && s.link.Some? && s.link.value.phase.GivenUp?
    ensures var s' := Done(session, s, e);
            s'.link.Some? && s'.link.value.phase.GivenUp? && End(s') == End(s) && |s'.published| >= |s.published|
  {
    if e.Receive? {
      ReceiveKeeps(session, [], s);
    } else {
      assert Frames(Done(session, s, e)) == Frames(s);
    }
  }

  /** From when its forwarder has given up until it disconnects a client gets nothing but the frames
      queued by then, however much is published and broadcast. */
  lemma {:induction false} GivenUpIsDeaf(session: nat, start: seq<BusEvent>, trace: seq<Relay>, events: seq<Event>,
                                         i: nat, j: nat)
    requires IsRelayRun(session, start, trace, events) && i <= j < |trace|
    requires trace[i].link.Some? && trace[i].link.value.phase.GivenUp?
    requires forall k :: i <= k < j ==> !events[k].Disconnect?
    ensures trace[j].link.Some? && trace[j].link.value.phase.GivenUp? && End(trace[j]) == End(trace[i])
    decreases j - i
  {
    if i < j {
      assert CanDo(trace[i], events[i]) && trace[i + 1] == Done(session, trace[i], events[i]);
      DeafStep(session, trace[i], events[i]);
      GivenUpIsDeaf(session, start, trace, events, i + 1, j);
    }
  }

  // ------------------------ broadcasts out of order ------------------------

  ghost predicate Reachable(session: nat, start: seq<BusEvent>, s: Relay) {
    exists trace, events :: IsRelayRun(session, start, trace, events) && trace[|events|] == s
  }

  lemma ReachNext(session: nat, start: seq<BusEvent>, s: Relay, e: Event)
    requires Reachable(session, start, s) && CanDo(s, e)
    ensures Reachable(session, start, Done(session, s, e))
  {
    var trace, events :| IsRelayRun(session, start, trace, events) && trace[|events|] == s;
    var trace', events' := trace + [Done(session, s, e)], events + [e];
    assert IsRelayRun(session, start, trace', events') && trace'[|events'|] == Done(session, s, e);
  }

  lemma ReachTo(s: Relay, e: Event, s': Relay)
    requires Reachable(1, [], s) && CanDo(s, e) && Done(1, s, e) == s'
    ensures Reachable(1, [], s')
  {
    ReachNext(1, [], s, e);
  }

  ghost function Raced(published: seq<string>, sent: seq<nat>, next: nat, frames: seq<Message>, inbox: Inbox): Relay {
    Relay(published, sent, Some(Link(next, Forwarding, frames)), inbox)
  }

  /** A client connected to an idle daemon, and two events published before either is broadcast. */
  lemma RaceBegins()
    ensures Reachable(1, [], Raced(["a", "b"], [], 0, [Replay(1, [])], Inbox(0, 0, [])))
  {
    var first, empty := Replay(1, []), Inbox(0, 0, []);
    var idle, joining := Relay([], [], None, empty), Relay([], [], Some(Link(0, Opening, [])), empty);
    var events: seq<Event> := [];
    assert IsRelayRun(1, [], [idle], events) && [idle][|events|] == idle;
    ReachTo(idle, Connect, joining);
    assert Replayed(1, [], 0) == first && joining.link.value.frames + [first] == [first];
    ReachTo(joining, Greet, Raced([], [], 0, [first], empty));
    ReachTo(Raced([], [], 0, [first], empty), Publish("a"), Raced(["a"], [], 0, [first], empty));
    assert ["a"] + ["b"] == ["a", "b"];
    ReachTo(Raced(["a"], [], 0, [first], empty), Publish("b"), Raced(["a", "b"], [], 0, [first], empty));
  }

  lemma RaceSends(published: seq<string>, frames: seq<Message>, inbox: Inbox)
    requires |published| == 2 && Reachable(1, [], Raced(published, [], 0, frames, inbox))
    ensures Reachable(1, [], Raced(published, [2, 1], 0, frames, inbox))
  {
    ReachTo(Raced(published, [], 0, frames, inbox), Send(2), Raced(published, [2], 0, frames, inbox));
    assert [2] + [1] == [2, 1];
    ReachTo(Raced(published, [2], 0, frames, inbox), Send(1), Raced(published, [2, 1], 0, frames, inbox));
  }

  lemma RaceForwards(published: seq<string>, sent: seq<nat>, next: nat, frames: seq<Message>, inbox: Inbox)
    requires next < |sent| <= 2 && 1 <= sent[next] <= |published|
    requires Reachable(1, [], Raced(published, sent, next, frames, inbox))
    ensures var live := Live(BusEvent(sent[next], published[sent[next] - 1]));
            Reachable(1, [], Raced(published, sent, next + 1, frames + [live], inbox))
  {
    var live := Live(BusEvent(sent[next], published[sent[next] - 1]));
    ReachTo(Raced(published, sent, next, frames, inbox), Forward(false),
            Raced(published, sent, next + 1, frames + [live], inbox));
  }

  lemma RaceReceives(published: seq<string>, sent: seq<nat>, next: nat, m: Message, rest: seq<Message>, inbox: Inbox)
    requires Reachable(1, [], Raced(published, sent, next, [m] + rest, inbox))
    ensures Reachable(1, [], Raced(published, sent, next, rest, Handled(inbox, m)))
  {
    assert ([m] + rest)[1..] == rest;
    ReachTo(Raced(published, sent, next, [m] + rest, inbox), Receive,
            Raced(published, sent, next, rest, Handled(inbox, m)));
  }

  /** A publisher takes its id under the lock and broadcasts after it. When a later id is broadcast
      first the earlier event is never shown, though the client was connected all along, nothing is left
      to receive and the ring still holds it. */
  lemma RacingPublishersLoseAnEvent()
    ensures exists s :: Reachable(1, [], s)
                        && s.link.Some? && s.link.value.phase.Forwarding? && s.link.value.frames == []
                        && s.link.value.next == |s.sent| == |s.published| == 2 && s.inbox.queue == [BusEvent(2, "b")]
  {
    var published, first, b, a := ["a", "b"], Replay(1, []), BusEvent(2, "b"), BusEvent(1, "a");
    RaceBegins();
    RaceSends(published, [first], Inbox(0, 0, []));
    RaceForwards(published, [2, 1], 0, [first], Inbox(0, 0, []));
    RaceForwards(published, [2, 1], 1, [first] + [Live(b)], Inbox(0, 0, []));
    assert [first] + [Live(b)] + [Live(a)] == [first] + [Live(b), Live(a)];
    RaceReceives(published, [2, 1], 2, first, [Live(b), Live(a)], Inbox(0, 0, []));
    assert [Live(b), Live(a)] == [Live(b)] + [Live(a)];
    RaceReceives(published, [2, 1], 2, Live(b), [Live(a)], Inbox(0, 1, []));
    OfferOne(Inbox(0, 1, []), b);
    assert [Live(a)] == [Live(a)] + [];
    RaceReceives(published, [2, 1], 2, Live(a), [], Inbox(2, 1, [b]));
    OfferOne(Inbox(2, 1, [b]), a);
    var s := Raced(published, [2, 1], 2, [], Inbox(2, 1, [b]));
    assert Reachable(1, [], s);
  }

  /** A connected client may so miss an event for good though no frame has passed it over: nothing is
      queued for it, and its queue still holds everything up to its cursor. */
  lemma GivenUpMissesAnEvent()
    ensures exists s :: Reachable(1, [], s) && s.link.Some? && s.link.value.phase.GivenUp? && s.link.value.frames == []
                        && |s.sent| == |s.published| == 1 && s.inbox == Inbox(0, 1, [])
  {
    var first, empty := Replay(1, []), Inbox(0, 0, []);
    var idle, joining := Relay([], [], None, empty), Relay([], [], Some(Link(0, Opening, [])), empty);
    var silent := Some(Link(0, GivenUp, []));
    var events: seq<Event> := [];
    assert IsRelayRun(1, [], [idle], events) && [idle][|events|] == idle;
    ReachTo(idle, Connect, joining);
    assert Replayed(1, [], 0) == first && joining.link.value.frames + [first] == [first] + [];
    ReachTo(joining, Greet, Raced([], [], 0, [first] + [], empty));
    RaceReceives([], [], 0, first, [], empty);
    ReachTo(Raced([], [], 0, [], Inbox(0, 1, [])), GiveUp, Relay([], [], silent, Inbox(0, 1, [])));
    ReachTo(Relay([], [], silent, Inbox(0, 1, [])), Publish("a"), Relay(["a"], [], silent, Inbox(0, 1, [])));
    ReachTo(Relay(["a"], [], silent, Inbox(0, 1, [])), Send(1), Relay(["a"], [1], silent, Inbox(0, 1, [])));
    assert Reachable(1, [], Relay(["a"], [1], silent, Inbox(0, 1, [])));
  }
}
