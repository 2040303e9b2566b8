/** The daemon's transactions on their way to one client: a broadcast its forwarder may lag behind, a
    queue of frames that may be full, and a snapshot wherever one of them passes a transaction over. */
module StateRelay {
  import opened Wrappers
  import opened Bus
  import opened TopicStore
  import Coordinator

  /** A connection opens with a snapshot, after which its forwarder runs, until a frame it waits to queue
      is not taken in time. */
  datatype Phase = Opening | Forwarding | GivenUp

  datatype Link = Link(next: nat, phase: Phase, frames: seq<Delivery>)

  /** How many events of the daemon's history have happened and how many have been broadcast; the
      connection; and the client: what it has handled, with its stores and the versions they are at. */
  datatype Relay = Relay(
    happened: nat,
    sent: nat,
    link: Option<Link>,
    log: seq<Delivery>,
    stores: seq<Store>,
    at: seq<nat>)

  datatype Step =
    | Happen
    | Send
    | Connect
    | Greet(records: seq<BusRecord>)
    | Forward
    | Full(records: seq<BusRecord>)
    | Lag(to: nat, records: seq<BusRecord>)
    | GiveUp
    | Receive
    | Disconnect

  ghost predicate Forwards(r: Relay) {
    r.link.Some? && r.link.value.phase.Forwarding?
  }

  /** A transaction that says something; the forwarder drops others. */
  ghost predicate Speaks(tx: Transaction) {
    tx.upserts != [] || tx.tombstones != []
  }

  ghost predicate SnapshotOf(h: History, r: Relay, records: seq<BusRecord>) {
    r.happened < |h.versions| && Enumerates(records, h.versions[r.happened].values)
  }

  ghost predicate CanDo(h: History, r: Relay, s: Step) {
    match s
    case Happen => r.happened < |h.txs|
    case Send => r.sent < r.happened
    case Connect => r.link.None?
    case Greet(records) => r.link.Some? && r.link.value.phase.Opening? && SnapshotOf(h, r, records)
    case Forward => Forwards(r) && r.link.value.next < r.sent && r.link.value.next < |h.txs|
    case Full(records) => Forwards(r) && r.link.value.next < r.sent && SnapshotOf(h, r, records)
    case Lag(to, records) => Forwards(r) && r.link.value.next < to <= r.sent && SnapshotOf(h, r, records)
    case GiveUp => Forwards(r)
    case Receive => r.link.Some? && r.link.value.frames != []
    case Disconnect => r.link.Some?
  }

  ghost function Queued(r: Relay, d: Delivery, next: nat): Relay
    requires r.link.Some?
  {
    var link := r.link.value;
    r.(link := Some(Link(next, Forwarding, link.frames + [d])))
  }

  ghost function Now(at: seq<nat>): nat {
    if at == [] then 0 else at[|at| - 1]
  }

  ghost function Held(stores: seq<Store>): Store {
    if stores == [] then DEFAULT_STORE else stores[|stores| - 1]
  }

  ghost predicate Handleable(h: History, d: Delivery) {
    && (d.Snapshot? ==> d.version < |h.versions|)
    && (d.Tx? ==> d.event < |h.txs| && h.txs[d.event].Some?)
  }

  ghost function Done(h: History, r: Relay, s: Step): Relay
    requires CanDo(h, r, s)
  {
    match s
    case Happen => r.(happened := r.happened + 1)
    case Send => r.(sent := r.sent + 1)
    case Connect => r.(link := Some(Link(r.sent, Opening, [])))
    case Greet(records) => Queued(r, Snapshot(r.happened, records), r.link.value.next)
    case Forward =>
      var link := r.link.value;
      if h.txs[link.next].Some? && Speaks(h.txs[link.next].value) then Queued(r, Tx(link.next), link.next + 1)
      else r.(link := Some(link.(next := link.next + 1)))
    case Full(records) => Queued(r, Snapshot(r.happened, records), r.link.value.next + 1)
    case Lag(to, records) => Queued(r, Snapshot(r.happened, records), to)
    case GiveUp => r.(link := Some(r.link.value.(phase := GivenUp)))
    case Receive =>
      var d := r.link.value.frames[0];
      r.(link := Some(r.link.value.(frames := r.link.value.frames[1..])),
         log := r.log + [d],
         stores := r.stores + [if Handleable(h, d) then Delivered(h, Held(r.stores), d) else Held(r.stores)],
         at := r.at + [Caught(h, Now(r.at), d)])
    case Disconnect => r.(link := None)
  }

  // ------------------------------ invariants ------------------------------

  /** Frames a client at this version can be delivered one after another, none beyond what happened. */
  ghost predicate Chain(h: History, at: nat, frames: seq<Delivery>, happened: nat)
    decreases |frames|
  {
    && at <= happened
    && (frames == [] ||
        (Deliverable(h, at, frames[0]) && Chain(h, Caught(h, at, frames[0]), frames[1..], happened)))
  }

  /** The version it has then caught up with. */
  ghost function EndOf(h: History, at: nat, frames: seq<Delivery>): nat
    decreases |frames|
  {
    if frames == [] then at else EndOf(h, Caught(h, at, frames[0]), frames[1..])
  }

  lemma {:induction false} ChainGrows(h: History, at: nat, frames: seq<Delivery>, happened: nat, d: Delivery)
    requires Chain(h, at, frames, happened) && Deliverable(h, EndOf(h, at, frames), d)
    requires Caught(h, EndOf(h, at, frames), d) <= happened
    ensures Chain(h, at, frames + [d], happened)
    ensures EndOf(h, at, frames + [d]) == Caught(h, EndOf(h, at, frames), d)
    decreases |frames|
  {
    if frames == [] {
      assert [d][1..] == [];
    } else {
      ChainGrows(h, Caught(h, at, frames[0]), frames[1..], happened, d);
      assert (frames + [d])[1..] == frames[1..] + [d];
    }
  }

  lemma {:induction false} ChainRises(h: History, at: nat, frames: seq<Delivery>, happened: nat)
    requires Chain(h, at, frames, happened)
    ensures Chain(h, at, frames, happened + 1) && EndOf(h, at, frames) <= happened
    decreases |frames|
  {
    if frames != [] { ChainRises(h, Caught(h, at, frames[0]), frames[1..], happened); }
  }

  ghost function Frames(r: Relay): seq<Delivery> {
    if r.link.Some? then r.link.value.frames else []
  }

  ghost function EndAt(h: History, r: Relay): nat {
    EndOf(h, Now(r.at), Frames(r))
  }

  /** Nothing was broadcast between two events. */
  ghost predicate Quiet(h: History, a: nat, b: nat) {
    forall i :: a <= i < b && i < |h.txs| ==> h.txs[i].None?
  }

  ghost predicate ClientFits(h: History, r: Relay) {
    && IsClientRun(h, r.stores, r.at, r.log) && Now(r.at) < |h.versions|
    && (r.log != [] ==> r.log[0].Snapshot?)
  }

  ghost predicate FramesFit(h: History, r: Relay) {
    Chain(h, Now(r.at), Frames(r), r.happened)
  }

  ghost predicate LinkFits(h: History, r: Relay) {
    && r.sent <= r.happened <= |h.txs| && |h.versions| == |h.txs| + 1
    && (r.link.Some? ==>
          var link := r.link.value;
          && link.next <= r.sent
          && (link.phase.Opening? ==> link.frames == [])
          && (link.phase.Forwarding? ==> Quiet(h, EndAt(h, r), link.next))
          && (!link.phase.Opening? && r.log == [] ==> link.frames != [] && link.frames[0].Snapshot?))
  }

  ghost predicate Inv(h: History, r: Relay) {
    ClientFits(h, r) && FramesFit(h, r) && LinkFits(h, r)
  }

  /** All transactions of the history say something. */
  ghost predicate Spoken(h: History) {
    forall i :: 0 <= i < |h.txs| && h.txs[i].Some? ==> Speaks(h.txs[i].value)
  }

  lemma QueuedKeeps(h: History, r: Relay, d: Delivery, next: nat)
    requires Inv(h, r) && r.link.Some? && Deliverable(h, EndAt(h, r), d) && next <= r.sent
    requires r.link.value.phase.Opening? ==> d.Snapshot?
    requires r.link.value.phase.Opening? || r.link.value.phase.Forwarding?
    requires Caught(h, EndAt(h, r), d) <= r.happened && Quiet(h, Caught(h, EndAt(h, r), d), next)
    ensures Inv(h, Queued(r, d, next))
  {
    ChainGrows(h, Now(r.at), Frames(r), r.happened, d);
    var r' := Queued(r, d, next);
    assert Frames(r') == Frames(r) + [d];
    assert EndAt(h, r') == Caught(h, EndAt(h, r), d);
  }

  lemma ForwardKeeps(h: History, r: Relay)
    requires Spoken(h) && Inv(h, r) && CanDo(h, r, Forward)
    ensures Inv(h, Done(h, r, Forward))
  {
    var next := r.link.value.next;
    if h.txs[next].Some? {
      ChainRises(h, Now(r.at), Frames(r), r.happened);
      assert Deliverable(h, EndAt(h, r), Tx(next));
      QueuedKeeps(h, r, Tx(next), next + 1);
    } else {
      var r' := Done(h, r, Forward);
      assert Frames(r') == Frames(r);
    }
  }

  lemma ReceiveKeeps(h: History, r: Relay)
    requires Inv(h, r) && CanDo(h, r, Receive)
    ensures Inv(h, Done(h, r, Receive)) && EndAt(h, Done(h, r, Receive)) == EndAt(h, r)
  {
    var d := r.link.value.frames[0];
    var r' := Done(h, r, Receive);
    assert Deliverable(h, Now(r.at), d);
    ClientGrows(h, r, d, r');
    assert Frames(r') == Frames(r)[1..];
  }

  lemma ClientGrows(h: History, r: Relay, d: Delivery, r': Relay)
    requires ClientFits(h, r) && Deliverable(h, Now(r.at), d) && |h.versions| == |h.txs| + 1
    requires r.log == [] ==> d.Snapshot?
    requires r'.log == r.log + [d] && r'.stores == r.stores + [Delivered(h, Held(r.stores), d)]
    requires r'.at == r.at + [Caught(h, Now(r.at), d)]
    ensures ClientFits(h, r')
  {
  }

  lemma HappenKeeps(h: History, r: Relay)
    requires Inv(h, r) && CanDo(h, r, Happen)
    ensures Inv(h, Done(h, r, Happen))
  {
    ChainRises(h, Now(r.at), Frames(r), r.happened);
    assert Frames(Done(h, r, Happen)) == Frames(r);
  }

  lemma StepKeeps(h: History, r: Relay, s: Step)
    requires Spoken(h) && Inv(h, r) && CanDo(h, r, s)
    ensures Inv(h, Done(h, r, s))
  {
    match s
    case Happen => HappenKeeps(h, r);
    case Greet(records) => QueuedKeeps(h, r, Snapshot(r.happened, records), r.link.value.next);
    case Forward => ForwardKeeps(h, r);
    case Full(records) => QueuedKeeps(h, r, Snapshot(r.happened, records), r.link.value.next + 1);
    case Lag(to, records) => QueuedKeeps(h, r, Snapshot(r.happened, records), to);
    case Receive => ReceiveKeeps(h, r);
    case Send => assert Frames(Done(h, r, Send)) == Frames(r);
    case GiveUp => assert Frames(Done(h, r, GiveUp)) == Frames(r);
    case Connect =>
    case Disconnect =>
  }

  // ------------------------------ whole runs ------------------------------

  const BEGINNING := Relay(0, 0, None, [], [DEFAULT_STORE], [0])

  ghost predicate IsRelayRun(h: History, trace: seq<Relay>, steps: seq<Step>) {
    && |trace| == |steps| + 1 && trace[0] == BEGINNING
    && forall i :: 0 <= i < |steps| ==> CanDo(h, trace[i], steps[i]) && trace[i + 1] == Done(h, trace[i], steps[i])
  }

  lemma {:induction false} RunKeeps(h: History, trace: seq<Relay>, steps: seq<Step>, n: nat)
    requires |h.versions| == |h.txs| + 1 && Spoken(h) && IsRelayRun(h, trace, steps) && n < |trace|
    ensures Inv(h, trace[n])
  {
    if n > 0 {
      RunKeeps(h, trace, steps, n - 1);
      StepKeeps(h, trace[n - 1], steps[n - 1]);
    }
  }

  /** Whatever lags, full queues and reconnects there are, what a client handles begins with a snapshot
      and never skips a transaction: it is the run of a client as `ClientMirrors` assumes it. */
  lemma RelayRunIsClientRun(h: History, trace: seq<Relay>, steps: seq<Step>, n: nat)
    requires |h.versions| == |h.txs| + 1 && Spoken(h) && IsRelayRun(h, trace, steps) && n < |trace|
    ensures IsClientRun(h, trace[n].stores, trace[n].at, trace[n].log)
    ensures trace[n].log != [] ==> trace[n].log[0].Snapshot?
  {
    RunKeeps(h, trace, steps, n);
  }

  /** So the client is at every moment the mirror of some version of the daemon's map, and of the newest
      once it is connected, its forwarder still runs and nothing is left to broadcast, receive or
      handle. */
  lemma RelayedClientMirrors(h: History, trace: seq<Relay>, steps: seq<Step>, n: nat)
    requires IsHistory(h) && Spoken(h) && IsRelayRun(h, trace, steps) && n < |trace|
    ensures var r := trace[n];
            && (r.log != [] ==> Now(r.at) <= r.happened < |h.versions|
                                && Mirrors(Held(r.stores), h.versions[Now(r.at)].values))
            && (Forwards(r) && r.link.value.frames == [] && r.link.value.next == r.sent == r.happened ==>
                  r.happened < |h.versions| && Mirrors(Held(r.stores), h.versions[r.happened].values))
  {
    RunKeeps(h, trace, steps, n);
    var r := trace[n];
    if r.log != [] {
      ClientMirrors(h, r.stores, r.at, r.log, |r.log|);
      if Forwards(r) && r.link.value.frames == [] && r.link.value.next == r.sent == r.happened {
        HistoryGrows(h, Now(r.at), r.happened);
      }
    }
  }

  /** A connection is sent on only what is broadcast after it subscribed; before that it knows the daemon from
      the snapshot it is greeted with. */
  lemma {:induction false} SubscribesFromNow(h: History, trace: seq<Relay>, steps: seq<Step>, i: nat, j: nat)
    requires IsRelayRun(h, trace, steps) && i < j < |trace| && steps[i].Connect?
    requires forall k :: i < k < j ==> !steps[k].Disconnect?
    ensures trace[j].link.Some? && trace[i].sent <= trace[j].link.value.next
    ensures j == i + 1 ==> trace[j].link.value == Link(trace[i].sent, Opening, [])
    ensures trace[j].sent >= trace[i].sent
    decreases j
  {
    assert CanDo(h, trace[j - 1], steps[j - 1]) && trace[j] == Done(h, trace[j - 1], steps[j - 1]);
    if j > i + 1 {
      SubscribesFromNow(h, trace, steps, i, j - 1);
    }
  }

  /** What each step queues for the client: a snapshot of the present, or the next transaction if it says
      anything. */
  lemma FramesAreExact(h: History, r: Relay, s: Step)
    requires CanDo(h, r, s) && r.link.Some?
    ensures var (link, r') := (r.link.value, Done(h, r, s));
            && (s.Greet? ==>
                  r'.link == Some(Link(link.next, Forwarding, link.frames + [Snapshot(r.happened, s.records)])))
            && (s.Full? ==>
                  r'.link == Some(Link(link.next + 1, Forwarding, link.frames + [Snapshot(r.happened, s.records)])))
            && (s.Lag? ==> r'.link == Some(Link(s.to, Forwarding, link.frames + [Snapshot(r.happened, s.records)])))
            && (s.Forward? ==>
                  var tx := h.txs[link.next];
                  r'.link == Some(Link(link.next + 1, Forwarding,
                    if tx.Some? && (tx.value.upserts != [] || tx.value.tombstones != [])
                    then link.frames + [Tx(link.next)] else link.frames)))
            && (s.Greet? || s.Full? || s.Lag? || s.Forward? ==>
                  r'.(link := None) == r.(link := None))
  {
  }

  /** The relay is never stuck: what happened can be broadcast, what was broadcast forwarded, whether its
      receiver lagged, its queue is full or neither, and what is queued received; so a client whose forwarder
      runs is drained exactly when none of these is left to do. */
  lemma RelayGoesOn(h: History, trace: seq<Relay>, steps: seq<Step>, n: nat, records: seq<BusRecord>)
    requires IsHistory(h) && Spoken(h) && IsRelayRun(h, trace, steps) && n < |trace|
    requires trace[n].happened < |h.versions| && Enumerates(records, h.versions[trace[n].happened].values)
    ensures var r := trace[n];
            && (CanDo(h, r, Happen) <==> r.happened < |h.txs|) && (CanDo(h, r, Send) <==> r.sent < r.happened)
            && (CanDo(h, r, Connect) <==> r.link.None?) && (CanDo(h, r, Disconnect) <==> r.link.Some?)
            && (CanDo(h, r, Greet(records)) <==> r.link.Some? && r.link.value.phase.Opening?)
            && (CanDo(h, r, Forward) <==> Forwards(r) && r.link.value.next < r.sent)
            && (CanDo(h, r, Full(records)) <==> CanDo(h, r, Forward))
            && (forall to: nat :: CanDo(h, r, Lag(to, records)) <==> Forwards(r) && r.link.value.next < to <= r.sent)
            && (CanDo(h, r, Receive) <==> r.link.Some? && r.link.value.frames != [])
            && (Forwards(r) && !CanDo(h, r, Receive) && !CanDo(h, r, Forward) && !CanDo(h, r, Send) ==>
                  r.link.value.frames == [] && r.link.value.next == r.sent == r.happened)
  {
    RunKeeps(h, trace, steps, n);
  }

  /** The daemon never publishes a transaction that says nothing. */
  lemma DaemonRunSpeaks(events: seq<Coordinator.Event>, h: History)
    requires Coordinator.IsDaemonRun(events, h)
    ensures Spoken(h)
  {
    forall i | 0 <= i < |h.txs| && h.txs[i].Some? ensures Speaks(h.txs[i].value) {
      assert Coordinator.Happens(h.versions[i], events[i], h.txs[i], h.versions[i + 1]);
      PublishedSpeaks(h.versions[i], events[i], h.txs[i].value, h.versions[i + 1]);
    }
  }

  lemma PublishedSpeaks(before: Version, e: Coordinator.Event, tx: Transaction, after: Version)
    requires Coordinator.Happens(before, e, Some(tx), after)
    ensures Speaks(tx)
  {
    var produced := Coordinator.Produce(e.w, Coordinator.Topics(e.change));
    var changed := Coordinator.Changed(before.values, produced);
    var stale := Coordinator.Stale(before.values, Coordinator.Topics(e.change), produced);
    if stale != {} {
      var key :| key in stale;
      assert key in tx.tombstones;
    } else {
      assert |tx.upserts| == |changed|;
    }
  }

  /** End to end, until the counter wraps: a client that is connected to a daemon and has nothing left to
      receive or handle lists exactly the registered devices, sorted by id, if the last thing that
      happened was a change that projects them all. */
  lemma RelayedClientListsTheRegistry(events: seq<Coordinator.Event>, h: History, trace: seq<Relay>,
                                      steps: seq<Step>, n: nat)
    requires Coordinator.IsDaemonRun(events, h) && |events| < U64_MAX
    requires IsRelayRun(h, trace, steps) && n < |trace| && Forwards(trace[n]) && trace[n].link.value.frames == []
    requires trace[n].link.value.next == trace[n].sent == trace[n].happened == |events| > 0
    requires events[|events| - 1].Record?
    requires Coordinator.Devices in Coordinator.Topics(events[|events| - 1].change)
    ensures Held(trace[n].stores).devices == SortedById(events[|events| - 1].w.devices)
    ensures ListsById(Held(trace[n].stores).devices, events[|events| - 1].w.devices)
  {
    var k := |events| - 1;
    Coordinator.DaemonRunIsHistory(events, h);
    DaemonRunSpeaks(events, h);
    RelayedClientMirrors(h, trace, steps, n);
    VersionIsKeyed(h, k);
    assert Coordinator.Happens(h.versions[k], events[k], h.txs[k], h.versions[k + 1]);
    Coordinator.MirrorListsTheRegistry(Held(trace[n].stores), h.versions[k], events[k], h.txs[k], h.versions[k + 1]);
  }
}
