/** The engines' run configs: a lossy bus subscriber, and the loop that ticks on what it holds. */
module RunLoop {
  import opened Wrappers
  import opened Bus
  import opened TopicStore

  datatype EngineRunConfig = EngineRunConfig(enabled: bool, tickMs: nat, failsafeDuty: Option<nat>)

  function FanCurve(c: CoolingConfig): EngineRunConfig {
    EngineRunConfig(c.enabled, c.tickMs, Some(c.failsafeDuty))
  }

  /** Frames per second, clamped to 1..=240, as a whole number of milliseconds. */
  function Frames(c: FpsConfig): (r: EngineRunConfig)
    ensures 4 <= r.tickMs <= 1000
  {
    var fps := if c.fps < 1 then 1 else if c.fps > 240 then 240 else c.fps;
    EngineRunConfig(c.enabled, 1000 / fps, None)
  }

  datatype EngineTopic = CoolingEngine | LightingEngine | LcdEngine

  function Key(topic: EngineTopic): string {
    match topic
    case CoolingEngine => COOLING
    case LightingEngine => LIGHTING
    case LcdEngine => LCD
  }

  function Fallback(topic: EngineTopic): EngineRunConfig {
    match topic
    case CoolingEngine => FanCurve(DEFAULT_COOLING)
    case LightingEngine => Frames(DEFAULT_FPS)
    case LcdEngine => Frames(DEFAULT_FPS)
  }

  function FromValue(topic: EngineTopic, value: BusValue): Option<EngineRunConfig> {
    if topic.CoolingEngine? && value.Cooling? then Some(FanCurve(value.cooling))
    else if topic.LightingEngine? && value.Lighting? then Some(Frames(value.fps))
    else if topic.LcdEngine? && value.Lcd? then Some(Frames(value.fps))
    else None
  }

  /** A frame interval in whole milliseconds is the longest of which that many fit into a second, the rate
      taken as 1 to 240 frames. */
  ghost predicate IsInterval(ms: nat, fps: nat) {
    var rate := if fps == 0 then 1 else if fps > 240 then 240 else fps;
    ms * rate <= 1000 < (ms + 1) * rate
  }

  /** What each engine reads out of its record, and what it takes before there is one. */
  lemma RecordMeansConfig(cooling: CoolingConfig, fps: FpsConfig, p: Payload)
    ensures var c := FromValue(CoolingEngine, Cooling(cooling, p));
            && c.Some? && c.value.enabled == cooling.enabled && c.value.tickMs == cooling.tickMs
            && c.value.failsafeDuty == Some(cooling.failsafeDuty)
    ensures forall f :: f == FromValue(LightingEngine, Lighting(fps, p)) || f == FromValue(LcdEngine, Lcd(fps, p)) ==>
              f.Some? && f.value.enabled == fps.enabled && IsInterval(f.value.tickMs, fps.fps)
              && f.value.failsafeDuty == None
    ensures Fallback(CoolingEngine) == EngineRunConfig(true, 2000, Some(75))
    ensures Fallback(LightingEngine) == Fallback(LcdEngine) == EngineRunConfig(true, 50, None)
    ensures Key(CoolingEngine) == "effective.cooling" && Key(LightingEngine) == "effective.lighting"
    ensures Key(LcdEngine) == "effective.lcd"
  {
  }

  /** The first record that carries a config for the topic. */
  function Find(topic: EngineTopic, records: seq<BusRecord>): Option<EngineRunConfig> {
    if records == [] then None
    else
      var config := FromValue(topic, records[0].value);
      if config.Some? then config else Find(topic, records[1..])
  }

  /** What a snapshot restricted to the topic's key holds. */
  function ConfigIn(topic: EngineTopic, values: map<string, BusValue>): Option<EngineRunConfig> {
    if Key(topic) in values then FromValue(topic, values[Key(topic)]) else None
  }

  /** How many sent transactions the broadcast channel retains. */
  const CAPACITY := 256

  datatype Cursor = Cursor(next: nat, current: EngineRunConfig)

  /** One turn of the receive loop with something to receive, and whether it ends the wait. */
  function Turn(topic: EngineTopic, sent: seq<Transaction>, values: map<string, BusValue>, c: Cursor)
    : (r: (Cursor, bool))
    requires c.next < |sent|
    ensures c.next < r.0.next <= |sent|
  {
    if |sent| - c.next > CAPACITY then
      var config := ConfigIn(topic, values);
      (Cursor(|sent| - CAPACITY, config.GetOr(c.current)), config.Some?)
    else
      var config := Find(topic, sent[c.next].upserts);
      (Cursor(c.next + 1, config.GetOr(c.current)), config.Some?)
  }

  /** Turns until one ends the wait or nothing is left to receive. */
  function Wait(topic: EngineTopic, sent: seq<Transaction>, values: map<string, BusValue>, c: Cursor): (Cursor, bool)
    requires c.next <= |sent|
    decreases |sent| - c.next
  {
    if c.next == |sent| then (c, false)
    else
      var (after, done) := Turn(topic, sent, values, c);
      if done then (after, true) else Wait(topic, sent, values, after)
  }

  class EngineConfigReceiver {
    const bus: DataBus
    const topic: EngineTopic
    var next: nat
    var current: EngineRunConfig

    constructor (bus: DataBus, topic: EngineTopic)
      ensures this.bus == bus && this.topic == topic && next == |bus.sent|
      ensures current == ConfigIn(topic, Values(bus.Inner())).GetOr(Fallback(topic))
      ensures OnRecord(topic, Values(bus.Inner()), bus.sent) ==> Inv(topic, View())
    {
      this.bus, this.topic := bus, topic;
      next := |bus.sent|;
      var config := ConfigIn(topic, Values(bus.Inner()));
      current := if config.Some? then config.value else Fallback(topic);
      new;
      assert AllCommitted(View()) == bus.sent;
    }

    /** The receiver as the protocol below sees it, between two publications. */
    ghost function View(): State
      reads this, bus
    {
      State.State(Values(bus.Inner()), bus.sent, None, Cursor(next, current), false)
    }

    /** True once a config arrived; false when the channel is drained and the await would park, and
        then what the receiver holds is the config on the bus. The channel never closes: the receiver
        itself keeps the bus alive. */
    method Changed() returns (arrived: bool)
      requires next <= |bus.sent|
      modifies this
      ensures next <= |bus.sent| && (!arrived ==> next == |bus.sent|)
      ensures old(Inv(topic, View())) ==> Inv(topic, View())
      ensures old(Inv(topic, View())) && !arrived ==>
        current == ConfigIn(topic, Values(bus.Inner())).GetOr(Fallback(topic))
      ensures (Cursor(next, current), arrived) ==
        Wait(topic, bus.sent, Values(bus.Inner()), Cursor(old(next), old(current)))
    {
      WaitEndsCurrent(topic, View());
      while next < |bus.sent|
        invariant next <= |bus.sent|
        invariant Wait(topic, bus.sent, Values(bus.Inner()), Cursor(old(next), old(current)))
               == Wait(topic, bus.sent, Values(bus.Inner()), Cursor(next, current))
      {
        if |bus.sent| - next > CAPACITY {
          next := |bus.sent| - CAPACITY;
          var config := ConfigIn(topic, Values(bus.Inner()));
          if config.Some? {
            current := config.value;
            return true;
          }
        } else {
          var tx := bus.sent[next];
          next := next + 1;
          var config := Find(topic, tx.upserts);
          if config.Some? {
            current := config.value;
            return true;
          }
        }
      }
      return false;
    }
  }

  // ---------------- the receiver beside a publishing daemon ----------------

  /** `unsent` is a commit whose broadcast has not happened yet; `fetching` is a receiver that
      has subscribed, or found it lagged, and has yet to read the snapshot. */
  datatype State = State(
    values: map<string, BusValue>,
    sent: seq<Transaction>,
    unsent: Option<Transaction>,
    cursor: Cursor,
    fetching: bool)

  datatype Step = Commit(tx: Transaction) | Send | Subscribe | Receive | Fetch

  ghost function Init(topic: EngineTopic): State {
    State.State(map[], [], None, Cursor(0, Fallback(topic)), true)
  }

  ghost predicate Enabled(s: State, step: Step) {
    match step
    case Commit(tx) => s.unsent.None? && WellFormed(tx)
    case Send => s.unsent.Some?
    case Subscribe => true
    case Receive => !s.fetching && s.cursor.next < |s.sent|
    case Fetch => s.fetching
  }

  ghost function Apply(topic: EngineTopic, s: State, step: Step): State
    requires Enabled(s, step)
  {
    match step
    case Commit(tx) => s.(values := After(s.values, tx), unsent := Some(tx))
    case Send => s.(sent := s.sent + [s.unsent.value], unsent := None)
    case Subscribe => s.(cursor := Cursor(|s.sent|, Fallback(topic)), fetching := true)
    case Receive =>
      if |s.sent| - s.cursor.next > CAPACITY then
        s.(cursor := s.cursor.(next := |s.sent| - CAPACITY), fetching := true)
      else s.(cursor := Turn(topic, s.sent, s.values, s.cursor).0)
    case Fetch =>
      s.(cursor := s.cursor.(current := ConfigIn(topic, s.values).GetOr(s.cursor.current)), fetching := false)
  }

  /** The last config a stretch of the stream carries. */
  ghost function LastConfig(topic: EngineTopic, txs: seq<Transaction>): Option<EngineRunConfig> {
    if txs == [] then None
    else
      var last := Find(topic, txs[|txs| - 1].upserts);
      if last.Some? then last else LastConfig(topic, txs[..|txs| - 1])
  }

  ghost function AllCommitted(s: State): seq<Transaction> {
    s.sent + if s.unsent.Some? then [s.unsent.value] else []
  }

  /** What is on the bus for a topic is the last config that was committed for it. */
  ghost predicate OnRecord(topic: EngineTopic, values: map<string, BusValue>, committed: seq<Transaction>) {
    Keyed(values) && LastConfig(topic, committed) == ConfigIn(topic, values)
  }

  ghost predicate Inv(topic: EngineTopic, s: State) {
    && s.cursor.next <= |s.sent| && OnRecord(topic, s.values, AllCommitted(s))
    && (ConfigIn(topic, s.values).None? ==> s.cursor.current == Fallback(topic))
    && (!s.fetching && LastConfig(topic, AllCommitted(s)[s.cursor.next..]).None? ==>
          s.cursor.current == ConfigIn(topic, s.values).GetOr(Fallback(topic)))
  }

  lemma {:induction false} LastOfConcat(topic: EngineTopic, a: seq<Transaction>, b: seq<Transaction>)
    ensures LastConfig(topic, a + b) ==
      if LastConfig(topic, b).Some? then LastConfig(topic, b) else LastConfig(topic, a)
    decreases |b|
  {
    if b == [] {
      assert a + b == a;
    } else {
      var n := |b| - 1;
      LastOfConcat(topic, a, b[..n]);
      assert (a + b)[..|a + b| - 1] == a + b[..n];
    }
  }

  lemma {:induction false} FindIsFirst(topic: EngineTopic, records: seq<BusRecord>)
    ensures Find(topic, records).Some? ==>
      exists i :: 0 <= i < |records| && FromValue(topic, records[i].value) == Find(topic, records)
                  && forall j :: 0 <= j < i ==> FromValue(topic, records[j].value).None?
    ensures Find(topic, records).None? ==> forall i :: 0 <= i < |records| ==> FromValue(topic, records[i].value).None?
  {
    if records != [] {
      FindIsFirst(topic, records[1..]);
      if Find(topic, records).Some? && FromValue(topic, records[0].value).None? {
        var i :| 0 <= i < |records| - 1 && FromValue(topic, records[1..][i].value) == Find(topic, records)
                 && forall j :: 0 <= j < i ==> FromValue(topic, records[1..][j].value).None?;
        assert records[i + 1] == records[1..][i];
        assert forall j :: 1 <= j < i + 1 ==> records[j] == records[1..][j - 1];
      } else {
        assert forall i :: 1 <= i < |records| ==> records[i] == records[1..][i - 1];
      }
    }
  }

  lemma FromValueMeansKey(topic: EngineTopic, v: BusValue)
    ensures FromValue(topic, v).Some? <==> KeyOf(v) == Key(topic)
  {
    var w := match topic
      case CoolingEngine => BusValue.Cooling(DEFAULT_COOLING, "")
      case LightingEngine => BusValue.Lighting(DEFAULT_FPS, "")
      case LcdEngine => BusValue.Lcd(DEFAULT_FPS, "");
    KeysSeparateValues(v, w);
  }

  /** A receiver that is no more than 256 transactions behind takes the next one, and reports it if and only
      if it carries a record of the topic, the first of which it then holds. Further behind, it goes on 256
      from the end, and reports what is on the bus, if anything is. */
  lemma TurnIsExact(topic: EngineTopic, sent: seq<Transaction>, values: map<string, BusValue>, c: Cursor)
    requires c.next < |sent| && Keyed(values)
    ensures var (r, done) := Turn(topic, sent, values, c);
            if |sent| - c.next <= 256 then
              var records := sent[c.next].upserts;
              && r.next == c.next + 1
              && (done <==> exists i :: 0 <= i < |records| && KeyOf(records[i].value) == Key(topic))
              && (!done ==> r.current == c.current)
              && (done ==> exists i :: 0 <= i < |records| && FromValue(topic, records[i].value) == Some(r.current)
                             && forall j :: 0 <= j < i ==> KeyOf(records[j].value) != Key(topic))
            else
              && r.next == |sent| - 256 && (done <==> Key(topic) in values)
              && (if done then FromValue(topic, values[Key(topic)]) == Some(r.current) else r.current == c.current)
  {
    if |sent| - c.next <= 256 {
      var records := sent[c.next].upserts;
      FindIsFirst(topic, records);
      forall i | 0 <= i < |records|
        ensures KeyOf(records[i].value) == Key(topic) <==> FromValue(topic, records[i].value).Some?
      {
        FromValueMeansKey(topic, records[i].value);
      }
    } else if Key(topic) in values {
      FromValueMeansKey(topic, values[Key(topic)]);
    }
  }

  /** A commit changes the topic's config exactly to what the transaction carries for it. */
  lemma CommitConfig(topic: EngineTopic, m: map<string, BusValue>, tx: Transaction)
    requires Keyed(m) && WellFormed(tx)
    ensures Keyed(After(m, tx))
    ensures ConfigIn(topic, After(m, tx)) ==
      if Find(topic, tx.upserts).Some? then Find(topic, tx.upserts) else ConfigIn(topic, m)
  {
    AfterIsKeyed(m, tx);
    FindIsFirst(topic, tx.upserts);
    var fallback := match topic
      case CoolingEngine => 3
      case LightingEngine => 4
      case LcdEngine => 5;
    TopicTellsKind(fallback);
    if Find(topic, tx.upserts).Some? {
      var i :| 0 <= i < |tx.upserts| && FromValue(topic, tx.upserts[i].value) == Find(topic, tx.upserts);
      FromValueMeansKey(topic, tx.upserts[i].value);
      UpsertedHit(m, tx.upserts, i);
    } else {
      forall i | 0 <= i < |tx.upserts| ensures tx.upserts[i].key != Key(topic) {
        FromValueMeansKey(topic, tx.upserts[i].value);
      }
      UpsertedMiss(m, tx.upserts, Key(topic));
    }
  }

  lemma CommitKeeps(topic: EngineTopic, s: State, tx: Transaction)
    requires Inv(topic, s) && s.unsent.None? && WellFormed(tx)
    ensures Inv(topic, s.(values := After(s.values, tx), unsent := Some(tx)))
  {
    var s' := s.(values := After(s.values, tx), unsent := Some(tx));
    var pending := AllCommitted(s)[s.cursor.next..];
    CommitConfig(topic, s.values, tx);
    assert AllCommitted(s) == s.sent && AllCommitted(s') == s.sent + [tx];
    assert AllCommitted(s')[s.cursor.next..] == pending + [tx];
    LastOfConcat(topic, s.sent, [tx]);
    LastOfConcat(topic, pending, [tx]);
    assert [tx][..0] == [];
  }

  lemma ReceiveKeeps(topic: EngineTopic, s: State)
    requires Inv(topic, s) && !s.fetching && s.cursor.next < |s.sent| <= s.cursor.next + CAPACITY
    ensures Inv(topic, s.(cursor := Turn(topic, s.sent, s.values, s.cursor).0))
  {
    var tx := s.sent[s.cursor.next];
    var all := AllCommitted(s);
    var rest := all[s.cursor.next + 1..];
    assert all[s.cursor.next..] == [tx] + rest;
    LastOfConcat(topic, [tx], rest);
    assert [tx][..0] == [];
    assert all == all[..s.cursor.next] + all[s.cursor.next..];
    LastOfConcat(topic, all[..s.cursor.next], all[s.cursor.next..]);
  }

  lemma StepKeeps(topic: EngineTopic, s: State, step: Step)
    requires Inv(topic, s) && Enabled(s, step)
    ensures Inv(topic, Apply(topic, s, step))
  {
    match step
    case Commit(tx) => CommitKeeps(topic, s, tx);
    case Send => assert AllCommitted(Apply(topic, s, step)) == AllCommitted(s);
    case Subscribe =>
    case Receive => if |s.sent| - s.cursor.next <= CAPACITY { ReceiveKeeps(topic, s); }
    case Fetch =>
  }

  /** A turn of the receive loop is a receive, followed by a fetch when it found itself lagged. */
  lemma TurnIsSteps(topic: EngineTopic, s: State)
    requires !s.fetching && s.cursor.next < |s.sent|
    ensures var received := Apply(topic, s, Receive);
            s.(cursor := Turn(topic, s.sent, s.values, s.cursor).0) ==
              if received.fetching then Apply(topic, received, Fetch) else received
  {
  }

  lemma TurnKeeps(topic: EngineTopic, s: State)
    requires Inv(topic, s) && !s.fetching && s.cursor.next < |s.sent|
    ensures Inv(topic, s.(cursor := Turn(topic, s.sent, s.values, s.cursor).0))
  {
    var received := Apply(topic, s, Receive);
    TurnIsSteps(topic, s);
    StepKeeps(topic, s, Receive);
    if received.fetching {
      StepKeeps(topic, received, Fetch);
    }
  }

  /** Waiting keeps the invariant, and when it ends with nothing left to receive the receiver holds
      the config of the record on the bus, or its default while there is none. */
  lemma {:induction false} WaitKeeps(topic: EngineTopic, s: State)
    requires Inv(topic, s) && !s.fetching
    ensures var (c, arrived) := Wait(topic, s.sent, s.values, s.cursor);
            && Inv(topic, s.(cursor := c)) && (!arrived ==> c.next == |s.sent|)
            && (!arrived && s.unsent.None? ==> c.current == ConfigIn(topic, s.values).GetOr(Fallback(topic)))
    decreases |s.sent| - s.cursor.next
  {
    if s.cursor.next == |s.sent| {
      assert s.unsent.None? ==> AllCommitted(s)[s.cursor.next..] == [];
    } else {
      var (c, done) := Turn(topic, s.sent, s.values, s.cursor);
      TurnKeeps(topic, s);
      if !done { WaitKeeps(topic, s.(cursor := c)); }
    }
  }

  lemma WaitEndsCurrent(topic: EngineTopic, s: State)
    requires s.cursor.next <= |s.sent| && s.unsent.None? && !s.fetching
    ensures var (c, arrived) := Wait(topic, s.sent, s.values, s.cursor);
            Inv(topic, s) ==>
              && Inv(topic, s.(cursor := c))
              && (!arrived ==> c.current == ConfigIn(topic, s.values).GetOr(Fallback(topic)))
  {
    if Inv(topic, s) { WaitKeeps(topic, s); }
  }

  ghost predicate IsRun(topic: EngineTopic, trace: seq<State>, steps: seq<Step>) {
    && |trace| == |steps| + 1
    && trace[0] == Init(topic)
    && forall i :: 0 <= i < |steps| ==> Enabled(trace[i], steps[i]) && trace[i + 1] == Apply(topic, trace[i], steps[i])
  }

  lemma {:induction false} RunKeeps(topic: EngineTopic, trace: seq<State>, steps: seq<Step>, i: nat)
    requires IsRun(topic, trace, steps) && i < |trace|
    ensures Inv(topic, trace[i])
  {
    if i > 0 {
      RunKeeps(topic, trace, steps, i - 1);
      StepKeeps(topic, trace[i - 1], steps[i - 1]);
    } else {
      assert AllCommitted(trace[0]) == [];
    }
  }

  /** However many transactions it lost, a receiver with none pending holds the config of the
      record on the bus, or its default while there is none. */
  lemma {:induction false} DrainedReceiverIsCurrent(topic: EngineTopic, trace: seq<State>, steps: seq<Step>, i: nat)
    requires IsRun(topic, trace, steps) && i < |trace|
    requires !trace[i].fetching && trace[i].cursor.next == |trace[i].sent| && trace[i].unsent.None?
    ensures trace[i].cursor.current == ConfigIn(topic, trace[i].values).GetOr(Fallback(topic))
  {
    RunKeeps(topic, trace, steps, i);
    assert AllCommitted(trace[i])[trace[i].cursor.next..] == [];
  }

  // ------------------------------ the tick loop ------------------------------

  /** How one await of the loop completes. */
  datatype Answer =
    | Work(has: bool)                         // `has_work()`
    | Woken                                   // `wait_for_work()`
    | Reconfigured(config: EngineRunConfig)   // `changed()`: a new current config
    | Ticked                                  // `interval.tick()`
    | Closed                                  // `changed()`: no further config

  /** One call of `tick_fn`: the config handed over, and the one its interval was built from. */
  datatype Tick = Tick(config: EngineRunConfig, interval: EngineRunConfig)

  /** What the loop is waiting for: the disabled park, `has_work` before an interval, the idle
      park, the ticking select, and `has_work` after a tick. */
  datatype Await = ForConfig | ForWork | ForWake | ForTick | ForMoreWork | Stopped

  predicate Completes(answer: Answer, await: Await) {
    match await
    case ForConfig => answer.Reconfigured? || answer.Closed?
    case ForWork => answer.Work?
    case ForWake => answer.Woken? || answer.Reconfigured? || answer.Closed?
    case ForTick => answer.Ticked? || answer.Reconfigured? || answer.Closed?
    case ForMoreWork => answer.Work?
    case Stopped => false
  }

  datatype Engine = Engine(current: EngineRunConfig, await: Await, interval: EngineRunConfig)

  function Restart(config: EngineRunConfig): Engine {
    Engine(config, if config.enabled then ForWork else ForConfig, config)
  }

  /** How one answer moves the loop; answers to other questions pass by. */
  function React(e: Engine, answer: Answer): Engine {
    if !Completes(answer, e.await) then e
    else
      match answer
      case Closed => e.(await := Stopped)
      case Reconfigured(config) => Restart(config)
      case Woken => Restart(e.current)
      case Ticked => e.(await := ForMoreWork)
      case Work(has) =>
        if has then e.(await := ForTick)
        else if e.await == ForWork then e.(await := ForWake)
        else Restart(e.current)
  }

  /** The tick calls made from script position `at` on. */
  function Ticks(e: Engine, script: seq<Answer>, at: nat): seq<Tick>
    requires at <= |script|
    decreases |script| - at
  {
    if at == |script| then []
    else Called(e, script[at]) + Ticks(React(e, script[at]), script, at + 1)
  }

  function Called(e: Engine, answer: Answer): seq<Tick> {
    if e.await == ForTick && answer.Ticked? then [Tick(e.current, e.interval)] else []
  }

  /** Every tick gets an enabled config, the very one its interval was built from. */
  lemma {:induction false} EveryTickIsCurrent(e: Engine, script: seq<Answer>, at: nat)
    requires at <= |script|
    requires e.await in {ForWork, ForTick, ForMoreWork} ==> e.current == e.interval && e.current.enabled
    ensures forall t <- Ticks(e, script, at) :: t.config.enabled && t.config == t.interval
    decreases |script| - at
  {
    if at < |script| {
      EveryTickIsCurrent(React(e, script[at]), script, at + 1);
    }
  }

  /** Without work the engine never ticks, however often it is woken or reconfigured. */
  lemma {:induction false} NoWorkNoTicks(e: Engine, script: seq<Answer>, at: nat)
    requires at <= |script| && e.await != ForTick && forall i :: at <= i < |script| ==> script[i] != Work(true)
    ensures Ticks(e, script, at) == []
    decreases |script| - at
  {
    if at < |script| {
      NoWorkNoTicks(React(e, script[at]), script, at + 1);
    }
  }

  /** Passes over answers that do not complete this await. */
  lemma {:induction false} Passing(e: Engine, script: seq<Answer>, at: nat, end: nat)
    requires at <= end <= |script| && forall i :: at <= i < end ==> !Completes(script[i], e.await)
    ensures Ticks(e, script, at) == Ticks(e, script, end)
    decreases end
  {
    if at < end {
      Passing(e, script, at, end - 1);
    }
  }

  lemma {:induction false} StoppedNeverTicks(e: Engine, script: seq<Answer>, at: nat)
    requires at <= |script| && e.await == Stopped
    ensures Ticks(e, script, at) == []
    decreases |script| - at
  {
    if at < |script| {
      StoppedNeverTicks(e, script, at + 1);
    }
  }

  // ---------------- what the loop does, answer by answer ----------------

  /** The engine after the script from `at` on. */
  function Reached(e: Engine, script: seq<Answer>, at: nat): Engine
    requires at <= |script|
    decreases |script| - at
  {
    if at == |script| then e else Reached(React(e, script[at]), script, at + 1)
  }

  lemma {:induction false} OneMore(e: Engine, script: seq<Answer>, a: Answer, at: nat)
    requires at <= |script|
    ensures Reached(e, script + [a], at) == React(Reached(e, script, at), a)
    ensures Ticks(e, script + [a], at) == Ticks(e, script, at) + Called(Reached(e, script, at), a)
    decreases |script| - at
  {
    if at < |script| {
      OneMore(React(e, script[at]), script, a, at + 1);
    } else {
      assert Reached(React(e, a), script + [a], at + 1) == React(e, a);
      assert Ticks(React(e, a), script + [a], at + 1) == [];
    }
  }

  /** The config in force after `n` answers: the last one announced, or the first. */
  ghost function ConfigAt(start: EngineRunConfig, script: seq<Answer>, n: nat): EngineRunConfig
    requires n <= |script|
  {
    if n == 0 then start
    else if script[n - 1].Reconfigured? then script[n - 1].config
    else ConfigAt(start, script, n - 1)
  }

  /** Whether `next` answers what the source asks after `n` answers: a disabled engine asks for a config;
      an enabled one whether there is work; with work it asks for the next tick, and after the tick again
      whether there is work; without, right after a tick, it begins again, and otherwise it parks until
      woken or reconfigured. A closed channel ends it. */
  ghost predicate Asked(start: EngineRunConfig, script: seq<Answer>, n: nat, next: Answer)
    requires n <= |script|
  {
    if n == 0 then if start.enabled then next.Work? else next.Reconfigured? || next.Closed?
    else
      match script[n - 1]
      case Reconfigured(c) => if c.enabled then next.Work? else next.Reconfigured? || next.Closed?
      case Woken => next.Work?
      case Ticked => next.Work?
      case Work(has) =>
        if has then next.Ticked? || next.Reconfigured? || next.Closed?
        else if n >= 2 && script[n - 2].Ticked? then next.Work?
        else next.Woken? || next.Reconfigured? || next.Closed?
      case Closed => false
  }

  /** Every answer is one to the question asked. */
  ghost predicate IsDialogue(start: EngineRunConfig, script: seq<Answer>) {
    forall n: nat :: n < |script| ==> Asked(start, script, n, script[n])
  }

  /** One tick for each answer that says so, with the config in force. */
  ghost function TicksDue(start: EngineRunConfig, script: seq<Answer>, n: nat): seq<Tick>
    requires n <= |script|
  {
    if n == 0 then []
    else
      var c := ConfigAt(start, script, n - 1);
      TicksDue(start, script, n - 1) + if script[n - 1].Ticked? then [Tick(c, c)] else []
  }

  /** How far the engine and the dialogue agree after `n` answers. */
  ghost predicate InStep(start: EngineRunConfig, script: seq<Answer>, n: nat, e: Engine)
    requires n <= |script|
  {
    && (forall next :: Completes(next, e.await) <==> Asked(start, script, n, next))
    && e.current == ConfigAt(start, script, n)
    && (e.await in {ForWork, ForWake, ForTick, ForMoreWork} ==> e.current.enabled)
    && (e.await in {ForWork, ForTick, ForMoreWork} ==> e.interval == e.current)
    && (n > 0 && script[n - 1].Ticked? <==> e.await == ForMoreWork)
  }

  lemma AwaitIs(start: EngineRunConfig, script: seq<Answer>, n: nat, e: Engine)
    requires n <= |script| && InStep(start, script, n, e)
    ensures e.await == ForTick <==> Asked(start, script, n, Ticked)
    ensures (e.await == ForWork || e.await == ForMoreWork) <==> Asked(start, script, n, Work(true))
    ensures e.await == ForWake <==> Asked(start, script, n, Woken)
    ensures e.await == Stopped <==> !Asked(start, script, n, Closed) && !Asked(start, script, n, Work(true))
  {
    assert Completes(Ticked, e.await) <==> Asked(start, script, n, Ticked);
    assert Completes(Work(true), e.await) <==> Asked(start, script, n, Work(true));
    assert Completes(Woken, e.await) <==> Asked(start, script, n, Woken);
    assert Completes(Closed, e.await) <==> Asked(start, script, n, Closed);
  }

  lemma InStepNext(start: EngineRunConfig, script: seq<Answer>, n: nat, e: Engine)
    requires n < |script| && InStep(start, script, n, e) && Asked(start, script, n, script[n])
    ensures InStep(start, script, n + 1, React(e, script[n]))
    ensures Called(e, script[n]) == if script[n].Ticked? then [Tick(e.current, e.current)] else []
  {
    AwaitIs(start, script, n, e);
    assert Completes(script[n], e.await);
  }

  /** One answer keeps the engine in step and makes the ticks that are due. */
  ghost predicate KeepsStep(
      script: seq<Answer>, due: nat -> seq<Tick>, inStep: (nat, Engine) -> bool, n: nat, e: Engine)
  {
    n < |script| && inStep(n, e) ==>
      inStep(n + 1, React(e, script[n])) && due(n + 1) == due(n) + Called(e, script[n])
  }

  lemma {:induction false} DialogueGoesOn(
      script: seq<Answer>, due: nat -> seq<Tick>, inStep: (nat, Engine) -> bool, n: nat, e: Engine)
    requires n <= |script| && inStep(0, e) && due(0) == []
    requires forall k: nat, x :: KeepsStep(script, due, inStep, k, x)
    ensures inStep(n, Reached(e, script[..n], 0))
    ensures Ticks(e, script[..n], 0) == due(n)
  {
    if n > 0 {
      DialogueGoesOn(script, due, inStep, n - 1, e);
      assert script[..n] == script[..n - 1] + [script[n - 1]];
      OneMore(e, script[..n - 1], script[n - 1], 0);
      assert KeepsStep(script, due, inStep, n - 1, Reached(e, script[..n - 1], 0));
    } else {
      assert script[..0] == [];
    }
  }

  lemma DialogueStep(start: EngineRunConfig, script: seq<Answer>, n: nat, e: Engine)
    requires n < |script| && InStep(start, script, n, e) && IsDialogue(start, script)
    ensures InStep(start, script, n + 1, React(e, script[n]))
    ensures TicksDue(start, script, n + 1) == TicksDue(start, script, n) + Called(e, script[n])
  {
    assert Asked(start, script, n, script[n]);
    InStepNext(start, script, n, e);
  }

  /** The engine asks what the source asks, and ticks exactly when told that the interval has elapsed, with
      the config in force and an interval built from it. */
  lemma EngineFollowsItsProgram(start: EngineRunConfig, script: seq<Answer>)
    requires IsDialogue(start, script)
    ensures Ticks(Restart(start), script, 0) == TicksDue(start, script, |script|)
    ensures forall next :: Completes(next, Reached(Restart(start), script, 0).await) <==>
                           Asked(start, script, |script|, next)
  {
    var due := (n: nat) => if n <= |script| then TicksDue(start, script, n) else [];
    var inStep := (n: nat, e) => n <= |script| && InStep(start, script, n, e);
    forall n: nat, e ensures KeepsStep(script, due, inStep, n, e) {
      if n < |script| && inStep(n, e) { DialogueStep(start, script, n, e); }
    }
    DialogueGoesOn(script, due, inStep, |script|, Restart(start));
    assert script[..|script|] == script;
  }

  /** The answers that are heeded; the others came to no question. */
  function Heeded(e: Engine, script: seq<Answer>, at: nat): seq<Answer>
    requires at <= |script|
    decreases |script| - at
  {
    if at == |script| then []
    else (if Completes(script[at], e.await) then [script[at]] else []) + Heeded(React(e, script[at]), script, at + 1)
  }

  lemma TicksFirst(e: Engine, a: Answer, rest: seq<Answer>)
    ensures Ticks(e, [a] + rest, 0) == Called(e, a) + Ticks(React(e, a), rest, 0)
  {
    ShiftTicks(React(e, a), [a], rest, 0);
  }

  lemma {:induction false} ShiftTicks(e: Engine, before: seq<Answer>, rest: seq<Answer>, at: nat)
    requires at <= |rest|
    ensures Ticks(e, before + rest, |before| + at) == Ticks(e, rest, at)
    decreases |rest| - at
  {
    if at < |rest| { ShiftTicks(React(e, rest[at]), before, rest, at + 1); }
  }

  /** Whatever a script holds, the ticks are those of the answers that are heeded. */
  lemma {:induction false} OnlyHeededCount(e: Engine, script: seq<Answer>, at: nat)
    requires at <= |script|
    ensures Ticks(e, script, at) == Ticks(e, Heeded(e, script, at), 0)
    decreases |script| - at
  {
    if at < |script| {
      var rest := Heeded(React(e, script[at]), script, at + 1);
      OnlyHeededCount(React(e, script[at]), script, at + 1);
      if Completes(script[at], e.await) {
        TicksFirst(e, script[at], rest);
      } else {
        assert [] + rest == rest;
      }
    }
  }

  /** There is work, and there is still after each of `n` ticks. */
  function Working(n: nat): seq<Answer> {
    if n == 0 then [Work(true)] else Working(n - 1) + [Ticked, Work(true)]
  }

  function Times(n: nat, c: EngineRunConfig): seq<Tick> {
    seq(n, _ => Tick(c, c))
  }

  lemma {:induction false} WorkingTicks(c: EngineRunConfig, n: nat)
    requires c.enabled
    ensures Ticks(Restart(c), Working(n), 0) == Times(n, c)
    ensures Reached(Restart(c), Working(n), 0) == Engine(c, ForTick, c)
  {
    if n == 0 {
      OneMore(Restart(c), [], Work(true), 0);
      assert [] + [Work(true)] == [Work(true)];
    } else {
      WorkingTicks(c, n - 1);
      OneMore(Restart(c), Working(n - 1), Ticked, 0);
      OneMore(Restart(c), Working(n - 1) + [Ticked], Work(true), 0);
      assert Working(n) == Working(n - 1) + [Ticked] + [Work(true)];
      assert Times(n, c) == Times(n - 1, c) + [Tick(c, c)];
    }
  }

  lemma Resumes(e: Engine, before: seq<Answer>, a: Answer, d: EngineRunConfig, n: nat)
    requires d.enabled && React(Reached(e, before, 0), a) == Restart(d) && Called(Reached(e, before, 0), a) == []
    ensures Ticks(e, before + [a] + Working(n), 0) == Ticks(e, before, 0) + Times(n, d)
  {
    WorkingTicks(d, n);
    OneMore(e, before, a, 0);
    TicksInTwo(e, before + [a], Working(n), 0);
  }

  lemma {:induction false} TicksInTwo(e: Engine, a: seq<Answer>, b: seq<Answer>, at: nat)
    requires at <= |a|
    ensures Ticks(e, a + b, at) == Ticks(e, a, at) + Ticks(Reached(e, a, at), b, 0)
    decreases |a| - at
  {
    if at < |a| {
      TicksInTwo(React(e, a[at]), a, b, at + 1);
    } else {
      ShiftTicks(e, a, b, 0);
    }
  }

  /** With an enabled config the engine makes one tick for each interval that ends while there is work. Once
      there is none it makes no more until it is woken, and then goes on with its config; reconfigured at
      work or parked, it goes on with the new config if that is enabled. */
  lemma EngineTicksWhileThereIsWork(c: EngineRunConfig, d: EngineRunConfig, n: nat, m: nat)
    requires c.enabled && d.enabled
    ensures Ticks(Restart(c), Working(n), 0) == Times(n, c)
    ensures Ticks(Restart(c), [Work(false), Woken] + Working(n), 0) == Times(n, c)
    ensures Ticks(Restart(c), [Work(false), Reconfigured(d)] + Working(n), 0) == Times(n, d)
    ensures Ticks(Restart(c), Working(n) + [Reconfigured(d)] + Working(m), 0) == Times(n, c) + Times(m, d)
    ensures Ticks(Restart(c.(enabled := false)), [Reconfigured(d)] + Working(n), 0) == Times(n, d)
  {
    WorkingTicks(c, n);
    var parked, off := [Work(false)], Restart(c.(enabled := false));
    OneMore(Restart(c), [], Work(false), 0);
    assert [] + parked == parked;
    Resumes(Restart(c), parked, Woken, c, n);
    Resumes(Restart(c), parked, Reconfigured(d), d, n);
    assert parked + [Woken] == [Work(false), Woken] && parked + [Reconfigured(d)] == [Work(false), Reconfigured(d)];
    Resumes(Restart(c), Working(n), Reconfigured(d), d, m);
    Resumes(off, [], Reconfigured(d), d, n);
    assert [] + [Reconfigured(d)] == [Reconfigured(d)];
  }

  ghost predicate Ended(script: seq<Answer>, at: nat) {
    at < |script| ==> script[at].Closed?
  }

  type Schedule = (Engine, nat) -> seq<Tick>

  function Ticking(script: seq<Answer>): Schedule {
    (e, at: nat) => if at <= |script| then Ticks(e, script, at) else []
  }

  /** `run` schedules as `Ticks` does; the loop proofs see only `run`, so `Ticks` need not be unfolded. */
  ghost predicate Follows(run: Schedule, script: seq<Answer>) {
    forall e, at: nat {:trigger Ticks(e, script, at)} :: at <= |script| ==> run(e, at) == Ticks(e, script, at)
  }

  /** The position of the answer that completes this await. */
  method Next(script: seq<Answer>, at: nat, ghost e: Engine, await: Await, ghost run: Schedule) returns (r: nat)
    requires at <= |script| && e.await == await && Follows(run, script)
    ensures at <= r <= |script| && (r < |script| ==> Completes(script[r], await))
    ensures Ended(script, r) ==> run(e, at) == []
    ensures !Ended(script, r) ==> run(e, at) == Called(e, script[r]) + run(React(e, script[r]), r + 1)
  {
    r := at;
    while r < |script| && !Completes(script[r], await)
      invariant at <= r <= |script| && forall i :: at <= i < r ==> !Completes(script[i], await)
    {
      r := r + 1;
    }
    Passing(e, script, at, r);
    assert run(e, at) == Ticks(e, script, at);
    if r < |script| {
      assert run(React(e, script[r]), r + 1) == Ticks(React(e, script[r]), script, r + 1);
      if script[r].Closed? {
        StoppedNeverTicks(React(e, script[r]), script, r + 1);
      }
    }
  }

  lemma Grouped(a: seq<Tick>, b: seq<Tick>, c: seq<Tick>)
    ensures a + (b + c) == (a + b) + c && a + [] == a
  {
  }

  lemma TickAnswers(c: EngineRunConfig)
    ensures React(Engine(c, ForTick, c), Ticked) == Engine(c, ForMoreWork, c)
    ensures Called(Engine(c, ForTick, c), Ticked) == [Tick(c, c)]
    ensures React(Engine(c, ForMoreWork, c), Work(true)) == Engine(c, ForTick, c)
    ensures React(Engine(c, ForMoreWork, c), Work(false)) == Restart(c)
  {
  }

  /** The ticking select of one interval: the ticks it makes, and where and with which config
      the outer loop goes on. */
  method TickInterval(interval: EngineRunConfig, script: seq<Answer>, from: nat, ghost run: Schedule)
    returns (ticks: seq<Tick>, current: EngineRunConfig, at: nat)
    requires from <= |script| && Follows(run, script)
    ensures from <= at <= |script|
    ensures run(Engine(interval, ForTick, interval), from) ==
      ticks + if Ended(script, at) then [] else run(Restart(current), at + 1)
  {
    ticks, current, at := [], interval, from;
    ghost var e := Engine(interval, ForTick, interval);
    ghost var asked := Engine(interval, ForMoreWork, interval);
    while true
      invariant from <= at <= |script| && current == interval
      invariant run(e, from) == ticks + run(e, at)
      decreases |script| - at
    {
      at := Next(script, at, e, ForTick, run);
      if at == |script| || script[at].Closed? { return; }
      if script[at].Reconfigured? {
        current := script[at].config;
        return;
      }
      TickAnswers(interval);
      Grouped(ticks, [Tick(interval, interval)], run(asked, at + 1));
      ticks := ticks + [Tick(current, interval)];
      at := Next(script, at + 1, asked, ForMoreWork, run);
      if at == |script| || !script[at].has { return; }
      at := at + 1;
    }
  }

  /** The loop itself, against a script of how its awaits complete. */
  method EngineRunLoopIdle(start: EngineRunConfig, script: seq<Answer>) returns (ticks: seq<Tick>)
    ensures ticks == Ticks(Restart(start), script, 0)
  {
    ticks := OuterLoop(start, script, Ticking(script));
  }

  method OuterLoop(start: EngineRunConfig, script: seq<Answer>, ghost run: Schedule) returns (ticks: seq<Tick>)
    requires Follows(run, script)
    ensures ticks == run(Restart(start), 0)
  {
    ticks := [];
    var current, at := start, 0;
    while at < |script|
      invariant 0 <= at <= |script|
      invariant run(Restart(start), 0) == ticks + run(Restart(current), at)
      decreases |script| - at
    {
      var cfg := current;
      if !cfg.enabled {
        at := Next(script, at, Restart(cfg), ForConfig, run);
        if at == |script| || script[at].Closed? { return; }
        current := script[at].config;
      } else {
        at := Next(script, at, Restart(cfg), ForWork, run);
        if at == |script| { return; }
        if !script[at].has {
          at := Next(script, at + 1, Engine(cfg, ForWake, cfg), ForWake, run);
          if at == |script| || script[at].Closed? { return; }
          if script[at].Reconfigured? { current := script[at].config; }
        } else {
          var more;
          more, current, at := TickInterval(cfg, script, at + 1, run);
          Grouped(ticks, more, if Ended(script, at) then [] else run(Restart(current), at + 1));
          ticks := ticks + more;
          if at == |script| || script[at].Closed? { return; }
        }
      }
      at := at + 1;
    }
    assert run(Restart(current), at) == Ticks(Restart(current), script, at);
  }
}
