/** The retry queue under concurrency, as one key sees it: every interleaving of the lock sections,
    unlocked flag reads and action runs that touch the key. Other keys only take tokens; `RetryKeys`
    shows that every run of the whole queue is, for each of its keys, a run of this protocol. */
module RetryProtocol {
  import opened Wrappers
  import opened Backoff

  /** Where a spawned loop stands between two of its atomic steps. */
  datatype Pc =
    | Sleeping      // waiting out its backoff; the next step reads the flag
    | Passed        // read the flag as unset; the action starts next
    | Acting        // the action is running
    | Acted         // the action asked for another attempt; the next step reads the flag
    | Retrying      // wants the lock to note the retry
    | Finishing     // wants the lock to release `running`
    | Done
    | Panicked      // the action panicked: its loop died without releasing `running`

  datatype Loop = Loop(budget: u32, attempt: Attempt, pc: Pc, cancelled: bool, episode: nat, runs: nat)

  /** One stretch between two clears of the key: the budgets failures were noted under, the last
      loop this stretch spawned, and every attempt its loops handed to their action. */
  datatype Episode = Episode(budgets: set<u32>, last: Option<Token>, handed: seq<Attempt>)

  /** The key's loops by token; `nextToken` is the next token of the queue. `draining` is the loop a clear
      has removed from the map but not yet cancelled; the clear holds the lock until it has. */
  datatype State = State(
    entry: Entry,
    loops: map<Token, Loop>,
    nextToken: Token,
    draining: Option<Token>,
    episodes: seq<Episode>)

  datatype Step =
    | Schedule(budget: u32)
    | Clear
    | StoreCancel
    | LoadBefore(t: Token)
    | StartAction(t: Token)
    | EndAction(t: Token, again: bool)
    | PanicAction(t: Token)
    | LoadAfter(t: Token)
    | Retry(t: Token)
    | Finish(t: Token)
    | Elsewhere      // another key's schedule takes a token

  const INIT := State(None, map[], 0, None, [])

  ghost predicate IsAt(s: State, t: Token, pc: Pc) {
    t in s.loops && s.loops[t].pc == pc
  }

  ghost predicate Enabled(s: State, step: Step) {
    match step
    case Schedule(_) => s.draining.None?
    case Clear => s.draining.None?
    case StoreCancel => s.draining.Some?
    case LoadBefore(t) => IsAt(s, t, Sleeping)
    case StartAction(t) => IsAt(s, t, Passed)
    case EndAction(t, _) => IsAt(s, t, Acting)
    case PanicAction(t) => IsAt(s, t, Acting)
    case LoadAfter(t) => IsAt(s, t, Acted)
    case Retry(t) => s.draining.None? && IsAt(s, t, Retrying)
    case Finish(t) => s.draining.None? && IsAt(s, t, Finishing)
    case Elsewhere => s.draining.None?
  }

  ghost function Goto(s: State, t: Token, pc: Pc): State
    requires t in s.loops
  {
    s.(loops := s.loops[t := s.loops[t].(pc := pc)])
  }

  /** The episode a failure noted now belongs to: the open one, or a new one. */
  ghost function Accounted(s: State, budget: u32): seq<Episode>
    requires s.entry.Some? ==> s.episodes != []
  {
    if s.entry.Some? then
      var e := |s.episodes| - 1;
      s.episodes[e := s.episodes[e].(budgets := s.episodes[e].budgets + {budget})]
    else
      s.episodes + [Episode({budget}, None, [])]
  }

  ghost function DoSchedule(s: State, budget: u32): State
    requires s.entry.Some? ==> s.episodes != []
  {
    if Running(s.entry).Some? then s
    else
      var noted := Scheduled(s.entry, budget, s.nextToken);
      var eps := Accounted(s, budget);
      var e := |eps| - 1;
      if noted.next.None? then s.(entry := noted.entry, episodes := eps)
      else
        s.(entry := noted.entry,
           loops := s.loops[s.nextToken := Loop(budget, noted.next.value, Sleeping, false, e, 0)],
           nextToken := s.nextToken + 1,
           episodes := eps[e := eps[e].(last := Some(s.nextToken))])
  }

  ghost function DoStart(s: State, t: Token): State
    requires t in s.loops && s.loops[t].episode < |s.episodes|
  {
    var l := s.loops[t];
    var ep := s.episodes[l.episode];
    s.(loops := s.loops[t := l.(pc := Acting, runs := l.runs + 1)],
       episodes := s.episodes[l.episode := ep.(handed := ep.handed + [l.attempt])])
  }

  ghost function DoRetry(s: State, t: Token): State
    requires t in s.loops
  {
    var l := s.loops[t];
    var noted := NoteRetry(s.entry, l.budget, t);
    s.(entry := noted.entry,
       loops := s.loops[t := if noted.next.Some? then l.(attempt := noted.next.value, pc := Sleeping)
                             else l.(pc := Finishing)])
  }

  ghost function Apply(s: State, step: Step): State
    requires Shape(s) && Enabled(s, step)
  {
    match step
    case Schedule(budget) => DoSchedule(s, budget)
    case Clear => s.(entry := None, draining := Running(s.entry))
    case StoreCancel =>
      var t := s.draining.value;
      s.(loops := s.loops[t := s.loops[t].(cancelled := true)], draining := None)
    case LoadBefore(t) => Goto(s, t, if s.loops[t].cancelled then Finishing else Passed)
    case StartAction(t) => DoStart(s, t)
    case EndAction(t, again) => Goto(s, t, if again then Acted else Finishing)
    case PanicAction(t) => Goto(s, t, Panicked)
    case LoadAfter(t) => Goto(s, t, if s.loops[t].cancelled then Finishing else Retrying)
    case Retry(t) => DoRetry(s, t)
    case Finish(t) => Goto(s, t, Done).(entry := Finished(s.entry, t))
    case Elsewhere => s.(nextToken := s.nextToken + 1)
  }

  // ------------------------------ the invariant ------------------------------

  predicate Pending(l: Loop) {
    l.pc == Sleeping || l.pc == Passed
  }

  ghost predicate Shape(s: State) {
    && (Running(s.entry).Some? ==> Running(s.entry).value in s.loops)
    && (s.draining.Some? ==> s.draining.value in s.loops)
    && (forall t :: t in s.loops ==> t < s.nextToken && s.loops[t].episode < |s.episodes|)
    && (s.entry.Some? ==> s.episodes != [])
  }

  /** The loop was spawned since the key was last cleared. */
  ghost predicate Current(s: State, t: Token)
    requires t in s.loops
  {
    s.entry.Some? && s.loops[t].episode == |s.episodes| - 1
  }

  /** `running` names the one live loop, and only the last loop of an episode can be unfinished. */
  ghost predicate Owned(s: State)
    requires Shape(s)
  {
    && (Running(s.entry).Some? ==>
          var l := s.loops[Running(s.entry).value];
          l.pc != Done && !l.cancelled && l.episode == |s.episodes| - 1)
    && (s.draining.Some? ==>
          var l := s.loops[s.draining.value];
          s.entry.None? && l.pc != Done && !l.cancelled)
    && (forall t :: t in s.loops && s.loops[t].pc != Done ==>
          && (s.loops[t].cancelled || Running(s.entry) == Some(t) || s.draining == Some(t))
          && (Current(s, t) ==> Running(s.entry) == Some(t)))
    && (forall t :: t in s.loops ==> Member(s.loops[t], t, s.episodes[s.loops[t].episode]))
  }

  ghost predicate Member(l: Loop, t: Token, ep: Episode) {
    l.budget in ep.budgets && (l.pc != Done ==> ep.last == Some(t))
  }

  ghost predicate Sound(a: Attempt) {
    1 <= a.number && a.wait == WaitFor(a.number)
  }

  /** Every attempt is sound and none is above `limit`. */
  ghost predicate Below(handed: seq<Attempt>, limit: nat) {
    forall i :: 0 <= i < |handed| ==> Sound(handed[i]) && handed[i].number <= limit
  }

  ghost predicate NonDecreasing(handed: seq<Attempt>) {
    forall i, j :: 0 <= i < j < |handed| ==> handed[i].number <= handed[j].number
  }

  ghost predicate Consecutive(handed: seq<Attempt>) {
    forall i :: 0 <= i < |handed| ==> handed[i].number == i + 1
  }

  ghost predicate EpisodeCounted(ep: Episode) {
    ep.budgets != {} && NonDecreasing(ep.handed) && Below(ep.handed, U32_MAX)
  }

  ghost predicate EntryCounted(s: State)
    requires Shape(s) && s.entry.Some?
  {
    var failures := s.entry.value.streak.failures;
    && 1 <= failures
    && Below(s.episodes[|s.episodes| - 1].handed, failures)
    && (s.entry.value.running.Some? ==> RunCounted(s.loops[s.entry.value.running.value], failures))
  }

  /** The attempts every episode has handed out so far. */
  ghost predicate Counted(s: State)
    requires Shape(s)
  {
    && (forall e :: 0 <= e < |s.episodes| ==> EpisodeCounted(s.episodes[e]))
    && (forall t :: t in s.loops ==> LoopCounted(s.loops[t], s.episodes[s.loops[t].episode].handed))
    && (s.entry.Some? ==> EntryCounted(s))
  }

  ghost predicate LoopCounted(l: Loop, handed: seq<Attempt>) {
    && Sound(l.attempt) && l.attempt.number <= l.budget
    && (l.budget < U32_MAX ==> l.runs + (if Pending(l) then 1 else 0) <= l.attempt.number)
    && (Pending(l) ==> Below(handed, l.attempt.number))
  }

  ghost predicate RunCounted(l: Loop, failures: nat) {
    l.attempt.number <= failures && (Pending(l) ==> l.attempt.number == failures)
  }

  ghost function Min(a: nat, b: nat): nat {
    if a <= b then a else b
  }

  ghost predicate EpisodeFixed(ep: Episode, b: u32) {
    ep.budgets == {b} ==> Consecutive(ep.handed) && |ep.handed| <= b
  }

  ghost predicate LoopFixed(l: Loop, ep: Episode, b: u32) {
    ep.budgets == {b} && Pending(l) ==> l.attempt.number == |ep.handed| + 1
  }

  ghost predicate EntryFixed(s: State, b: u32)
    requires Shape(s) && s.entry.Some?
  {
    var ep := s.episodes[|s.episodes| - 1];
    ep.budgets == {b} ==> |ep.handed| == Reached(s, s.entry.value, b)
  }

  /** With one fixed budget `b`, how far each episode has counted. */
  ghost predicate Fixed(s: State, b: u32)
    requires Shape(s)
  {
    && (forall e :: 0 <= e < |s.episodes| ==> EpisodeFixed(s.episodes[e], b))
    && (forall t :: t in s.loops ==> LoopFixed(s.loops[t], s.episodes[s.loops[t].episode], b))
    && (s.entry.Some? ==> EntryFixed(s, b))
  }

  ghost function Reached(s: State, state: RetryState, b: u32): int
    requires state.running.Some? ==> state.running.value in s.loops
  {
    if state.running.Some? && Pending(s.loops[state.running.value]) then state.streak.failures - 1
    else Min(state.streak.failures, b)
  }

  ghost predicate Inv(s: State) {
    Shape(s) && Owned(s) && Counted(s) && forall b: u32 :: b < U32_MAX ==> Fixed(s, b)
  }

  /** Moving one loop's program counter forward, away from its lock sections. */
  ghost predicate Forward(s: State, t: Token, pc: Pc) {
    && t in s.loops && s.loops[t].pc != Done && pc != Done && pc != Sleeping
    && (pc == Passed ==> s.loops[t].pc == Sleeping)
    && (Pending(s.loops[t]) && pc != Passed ==> s.loops[t].cancelled)
  }

  lemma GotoKeepsOwned(s: State, t: Token, pc: Pc)
    requires Shape(s) && Owned(s) && Forward(s, t, pc)
    ensures var s' := Goto(s, t, pc); Shape(s') && Owned(s')
  {
  }

  lemma GotoKeepsCounted(s: State, t: Token, pc: Pc)
    requires Shape(s) && Counted(s) && Forward(s, t, pc) && Shape(Goto(s, t, pc))
    ensures Counted(Goto(s, t, pc))
  {
    var s' := Goto(s, t, pc);
    forall u | u in s'.loops ensures LoopCounted(s'.loops[u], s'.episodes[s'.loops[u].episode].handed) {
      assert LoopCounted(s.loops[u], s.episodes[s.loops[u].episode].handed);
    }
  }

  lemma GotoKeepsFixed(s: State, t: Token, pc: Pc, b: u32)
    requires Shape(s) && Owned(s) && Forward(s, t, pc) && Fixed(s, b) && Shape(Goto(s, t, pc))
    ensures Fixed(Goto(s, t, pc), b)
  {
  }

  lemma ScheduleKeepsOwned(s: State, budget: u32)
    requires Shape(s) && Owned(s) && s.draining.None?
    ensures var s' := DoSchedule(s, budget); Shape(s') && Owned(s')
  {
    var s' := DoSchedule(s, budget);
    forall t | t in s.loops ensures Member(s.loops[t], t, s'.episodes[s.loops[t].episode]) {
      assert Member(s.loops[t], t, s.episodes[s.loops[t].episode]);
    }
  }

  /** A schedule adds a budget to one episode and hands nothing out. */
  lemma ScheduleKeepsHanded(s: State, budget: u32, b: u32, e: nat)
    requires Shape(s) && e < |s.episodes| && s.episodes[e].budgets != {}
    ensures var s' := DoSchedule(s, budget);
            && e < |s'.episodes| && s'.episodes[e].handed == s.episodes[e].handed
            && (s'.episodes[e].budgets == {b} ==> s.episodes[e].budgets == {b})
  {
    var s' := DoSchedule(s, budget);
    if s'.episodes[e].budgets == {b} {
      var x :| x in s.episodes[e].budgets;
      assert s.episodes[e].budgets <= {b};
    }
  }

  lemma ScheduleCountsEpisodes(s: State, budget: u32, e: nat)
    requires Shape(s) && Counted(s) && Running(s.entry).None? && e < |DoSchedule(s, budget).episodes|
    ensures EpisodeCounted(DoSchedule(s, budget).episodes[e])
  {
    if e < |s.episodes| {
      assert EpisodeCounted(s.episodes[e]);
    }
  }

  lemma ScheduleCountsLoops(s: State, budget: u32, t: Token)
    requires Shape(s) && Counted(s) && Running(s.entry).None? && Shape(DoSchedule(s, budget))
    requires t in DoSchedule(s, budget).loops
    ensures var s' := DoSchedule(s, budget); LoopCounted(s'.loops[t], s'.episodes[s'.loops[t].episode].handed)
  {
    if t in s.loops {
      var e := s.loops[t].episode;
      assert LoopCounted(s.loops[t], s.episodes[e].handed) && EpisodeCounted(s.episodes[e]);
      ScheduleKeepsHanded(s, budget, budget, e);
    } else if s.entry.Some? {
      assert EntryCounted(s) && EpisodeCounted(s.episodes[|s.episodes| - 1]);
    }
  }

  lemma ScheduleCountsEntry(s: State, budget: u32)
    requires Shape(s) && Counted(s) && Running(s.entry).None? && Shape(DoSchedule(s, budget))
    ensures DoSchedule(s, budget).entry.Some? && EntryCounted(DoSchedule(s, budget))
  {
    if s.entry.Some? {
      assert EntryCounted(s) && EpisodeCounted(s.episodes[|s.episodes| - 1]);
    }
  }

  lemma ScheduleKeepsCounted(s: State, budget: u32)
    requires Shape(s) && Counted(s) && Running(s.entry).None? && Shape(DoSchedule(s, budget))
    ensures Counted(DoSchedule(s, budget))
  {
    var s' := DoSchedule(s, budget);
    forall e | 0 <= e < |s'.episodes| ensures EpisodeCounted(s'.episodes[e]) {
      ScheduleCountsEpisodes(s, budget, e);
    }
    forall t | t in s'.loops ensures LoopCounted(s'.loops[t], s'.episodes[s'.loops[t].episode].handed) {
      ScheduleCountsLoops(s, budget, t);
    }
    ScheduleCountsEntry(s, budget);
  }

  lemma ScheduleFixesEpisodes(s: State, budget: u32, b: u32, e: nat)
    requires Shape(s) && Counted(s) && Fixed(s, b) && Running(s.entry).None? && e < |DoSchedule(s, budget).episodes|
    ensures EpisodeFixed(DoSchedule(s, budget).episodes[e], b)
  {
    if e < |s.episodes| {
      assert EpisodeCounted(s.episodes[e]);
      ScheduleKeepsHanded(s, budget, b, e);
    }
  }

  lemma ScheduleFixesLoops(s: State, budget: u32, b: u32, t: Token)
    requires Shape(s) && Counted(s) && Fixed(s, b) && Running(s.entry).None? && b < U32_MAX
    requires Shape(DoSchedule(s, budget))
    requires t in DoSchedule(s, budget).loops
    ensures var s' := DoSchedule(s, budget); LoopFixed(s'.loops[t], s'.episodes[s'.loops[t].episode], b)
  {
    if t in s.loops {
      var e := s.loops[t].episode;
      assert LoopFixed(s.loops[t], s.episodes[e], b) && EpisodeCounted(s.episodes[e]);
      ScheduleKeepsHanded(s, budget, b, e);
    } else if s.entry.Some? {
      var e := |s.episodes| - 1;
      assert EpisodeCounted(s.episodes[e]);
      ScheduleKeepsHanded(s, budget, b, e);
    }
  }

  lemma ScheduleFixesEntry(s: State, budget: u32, b: u32)
    requires Shape(s) && Counted(s) && Fixed(s, b) && Running(s.entry).None? && b < U32_MAX
    requires Shape(DoSchedule(s, budget))
    ensures DoSchedule(s, budget).entry.Some? && EntryFixed(DoSchedule(s, budget), b)
  {
    if s.entry.Some? {
      var e := |s.episodes| - 1;
      assert EpisodeCounted(s.episodes[e]) && EntryFixed(s, b);
      ScheduleKeepsHanded(s, budget, b, e);
    }
  }

  lemma ScheduleKeepsFixed(s: State, budget: u32, b: u32)
    requires Shape(s) && Counted(s) && s.draining.None? && Running(s.entry).None?
    requires b < U32_MAX && Fixed(s, b) && Shape(DoSchedule(s, budget))
    ensures Fixed(DoSchedule(s, budget), b)
  {
    var s' := DoSchedule(s, budget);
    forall e | 0 <= e < |s'.episodes| ensures EpisodeFixed(s'.episodes[e], b) {
      ScheduleFixesEpisodes(s, budget, b, e);
    }
    forall t | t in s'.loops ensures LoopFixed(s'.loops[t], s'.episodes[s'.loops[t].episode], b) {
      ScheduleFixesLoops(s, budget, b, t);
    }
    ScheduleFixesEntry(s, budget, b);
  }

  lemma ClearKeepsOwned(s: State)
    requires Shape(s) && Owned(s) && s.draining.None?
    ensures var s' := Apply(s, Clear); Shape(s') && Owned(s')
  {
  }

  lemma ClearKeepsCounted(s: State)
    requires Shape(s) && Counted(s) && s.draining.None?
    ensures var s' := Apply(s, Clear); Shape(s') && Counted(s')
  {
  }

  lemma StoreKeepsOwned(s: State)
    requires Shape(s) && Owned(s) && s.draining.Some?
    ensures var s' := Apply(s, StoreCancel); Shape(s') && Owned(s')
  {
  }

  lemma StoreKeepsCounted(s: State)
    requires Shape(s) && Counted(s) && s.draining.Some?
    ensures var s' := Apply(s, StoreCancel); Shape(s') && Counted(s')
  {
    var s' := Apply(s, StoreCancel);
    forall u | u in s'.loops ensures LoopCounted(s'.loops[u], s'.episodes[s'.loops[u].episode].handed) {
      assert LoopCounted(s.loops[u], s.episodes[s.loops[u].episode].handed);
    }
  }

  lemma StoreKeepsFixed(s: State, b: u32)
    requires Shape(s) && Owned(s) && s.draining.Some? && Fixed(s, b)
    ensures var s' := Apply(s, StoreCancel); Shape(s') && Fixed(s', b)
  {
  }

  lemma StartKeepsOwned(s: State, t: Token)
    requires Shape(s) && Owned(s) && IsAt(s, t, Passed)
    ensures var s' := DoStart(s, t); Shape(s') && Owned(s')
  {
    var s' := DoStart(s, t);
    forall u | u in s.loops ensures Member(s'.loops[u], u, s'.episodes[s'.loops[u].episode]) {
      assert Member(s.loops[u], u, s.episodes[s.loops[u].episode]);
    }
  }

  /** Two pending loops of one episode are one loop. */
  lemma PendingIsLast(s: State, t: Token, u: Token)
    requires Shape(s) && Owned(s) && t in s.loops && u in s.loops && s.loops[t].episode == s.loops[u].episode
    requires s.loops[t].pc != Done && s.loops[u].pc != Done
    ensures t == u
  {
    assert Member(s.loops[t], t, s.episodes[s.loops[t].episode]);
    assert Member(s.loops[u], u, s.episodes[s.loops[u].episode]);
  }

  lemma StartKeepsLoops(s: State, t: Token, u: Token)
    requires Shape(s) && Owned(s) && Counted(s) && IsAt(s, t, Passed) && u in s.loops
    ensures var s' := DoStart(s, t);
            u in s'.loops && LoopCounted(s'.loops[u], s'.episodes[s'.loops[u].episode].handed)
  {
    assert LoopCounted(s.loops[u], s.episodes[s.loops[u].episode].handed);
    if Pending(s.loops[u]) && s.loops[u].episode == s.loops[t].episode {
      PendingIsLast(s, t, u);
    }
  }

  lemma StartKeepsCounted(s: State, t: Token)
    requires Shape(s) && Owned(s) && Counted(s) && IsAt(s, t, Passed) && Shape(DoStart(s, t))
    ensures Counted(DoStart(s, t))
  {
    var s' := DoStart(s, t);
    var e := s.loops[t].episode;
    assert LoopCounted(s.loops[t], s.episodes[e].handed) && Member(s.loops[t], t, s.episodes[e]);
    forall u | u in s'.loops ensures LoopCounted(s'.loops[u], s'.episodes[s'.loops[u].episode].handed) {
      StartKeepsLoops(s, t, u);
    }
    assert Below(s.episodes[e].handed, s.loops[t].attempt.number);
  }

  lemma StartKeepsFixed(s: State, t: Token, b: u32)
    requires Shape(s) && Owned(s) && Counted(s) && IsAt(s, t, Passed)
    requires b < U32_MAX && Fixed(s, b) && Shape(DoStart(s, t))
    ensures Fixed(DoStart(s, t), b)
  {
    var e := s.loops[t].episode;
    assert LoopCounted(s.loops[t], s.episodes[e].handed) && Member(s.loops[t], t, s.episodes[e]);
    forall u | u in s.loops && u != t && Pending(s.loops[u]) ensures s.loops[u].episode != e {
      if s.loops[u].episode == e { PendingIsLast(s, t, u); }
    }
  }

  lemma RetryKeepsOwned(s: State, t: Token)
    requires Shape(s) && Owned(s) && s.draining.None? && IsAt(s, t, Retrying)
    ensures var s' := DoRetry(s, t); Shape(s') && Owned(s')
  {
    assert Member(s.loops[t], t, s.episodes[s.loops[t].episode]);
  }

  lemma RetryKeepsCounted(s: State, t: Token)
    requires Shape(s) && Owned(s) && Counted(s) && s.draining.None? && IsAt(s, t, Retrying) && Shape(DoRetry(s, t))
    ensures Counted(DoRetry(s, t))
  {
    var s' := DoRetry(s, t);
    forall u | u in s'.loops ensures LoopCounted(s'.loops[u], s'.episodes[s'.loops[u].episode].handed) {
      assert LoopCounted(s.loops[u], s.episodes[s.loops[u].episode].handed);
    }
  }

  lemma RetryKeepsFixed(s: State, t: Token, b: u32)
    requires Shape(s) && Owned(s) && Counted(s) && s.draining.None? && IsAt(s, t, Retrying)
    requires b < U32_MAX && Fixed(s, b) && Shape(DoRetry(s, t))
    ensures Fixed(DoRetry(s, t), b)
  {
    var e := s.loops[t].episode;
    assert LoopCounted(s.loops[t], s.episodes[e].handed) && Member(s.loops[t], t, s.episodes[e]);
  }

  lemma FinishKeepsOwned(s: State, t: Token)
    requires Shape(s) && Owned(s) && s.draining.None? && IsAt(s, t, Finishing)
    ensures var s' := Apply(s, Finish(t)); Shape(s') && Owned(s')
  {
  }

  lemma FinishKeepsCounted(s: State, t: Token)
    requires Shape(s) && Counted(s) && s.draining.None? && IsAt(s, t, Finishing) && Shape(Apply(s, Finish(t)))
    ensures Counted(Apply(s, Finish(t)))
  {
    var s' := Apply(s, Finish(t));
    forall u | u in s'.loops ensures LoopCounted(s'.loops[u], s'.episodes[s'.loops[u].episode].handed) {
      assert LoopCounted(s.loops[u], s.episodes[s.loops[u].episode].handed);
    }
  }

  lemma FinishKeepsFixed(s: State, t: Token, b: u32)
    requires Shape(s) && Owned(s) && s.draining.None? && IsAt(s, t, Finishing)
    requires Fixed(s, b) && Shape(Apply(s, Finish(t)))
    ensures Fixed(Apply(s, Finish(t)), b)
  {
  }

  /** Where a step that only moves a loop on leaves it. */
  ghost function Target(s: State, step: Step): Option<(Token, Pc)>
    requires Enabled(s, step)
  {
    match step
    case LoadBefore(t) => Some((t, if s.loops[t].cancelled then Finishing else Passed))
    case EndAction(t, again) => Some((t, if again then Acted else Finishing))
    case PanicAction(t) => Some((t, Panicked))
    case LoadAfter(t) => Some((t, if s.loops[t].cancelled then Finishing else Retrying))
    case _ => None
  }

  lemma TargetIsForward(s: State, step: Step)
    requires Shape(s) && Enabled(s, step) && Target(s, step).Some?
    ensures var (t, pc) := Target(s, step).value; Forward(s, t, pc) && Apply(s, step) == Goto(s, t, pc)
  {
  }

  lemma StepKeepsOwned(s: State, step: Step)
    requires Shape(s) && Owned(s) && Enabled(s, step)
    ensures var s' := Apply(s, step); Shape(s') && Owned(s')
  {
    if Target(s, step).Some? {
      var (t, pc) := Target(s, step).value;
      TargetIsForward(s, step);
      GotoKeepsOwned(s, t, pc);
    } else {
      match step
      case Schedule(budget) => ScheduleKeepsOwned(s, budget);
      case Clear => ClearKeepsOwned(s);
      case StoreCancel => StoreKeepsOwned(s);
      case StartAction(t) => StartKeepsOwned(s, t);
      case Retry(t) => RetryKeepsOwned(s, t);
      case Finish(t) => FinishKeepsOwned(s, t);
      case Elsewhere =>
    }
  }

  lemma StepKeepsCounted(s: State, step: Step)
    requires Shape(s) && Owned(s) && Counted(s) && Enabled(s, step) && Shape(Apply(s, step))
    ensures Counted(Apply(s, step))
  {
    if Target(s, step).Some? {
      var (t, pc) := Target(s, step).value;
      TargetIsForward(s, step);
      GotoKeepsCounted(s, t, pc);
    } else {
      match step
      case Schedule(budget) => if Running(s.entry).None? { ScheduleKeepsCounted(s, budget); }
      case Clear => ClearKeepsCounted(s);
      case StoreCancel => StoreKeepsCounted(s);
      case StartAction(t) => StartKeepsCounted(s, t);
      case Retry(t) => RetryKeepsCounted(s, t);
      case Finish(t) => FinishKeepsCounted(s, t);
      case Elsewhere =>
    }
  }

  lemma StepKeepsFixed(s: State, step: Step, b: u32)
    requires Shape(s) && Owned(s) && Counted(s) && Enabled(s, step) && Shape(Apply(s, step))
    requires b < U32_MAX && Fixed(s, b)
    ensures Fixed(Apply(s, step), b)
  {
    if Target(s, step).Some? {
      var (t, pc) := Target(s, step).value;
      TargetIsForward(s, step);
      GotoKeepsFixed(s, t, pc, b);
    } else {
      match step
      case Schedule(budget) => if Running(s.entry).None? { ScheduleKeepsFixed(s, budget, b); }
      case Clear =>
      case StoreCancel => StoreKeepsFixed(s, b);
      case StartAction(t) => StartKeepsFixed(s, t, b);
      case Retry(t) => RetryKeepsFixed(s, t, b);
      case Finish(t) => FinishKeepsFixed(s, t, b);
      case Elsewhere =>
    }
  }

  /** No interleaving of atomic steps breaks the invariant. */
  lemma StepKeeps(s: State, step: Step)
    requires Inv(s) && Enabled(s, step)
    ensures Inv(Apply(s, step))
  {
    StepKeepsOwned(s, step);
    StepKeepsCounted(s, step);
    forall b: u32 | b < U32_MAX ensures Fixed(Apply(s, step), b) {
      StepKeepsFixed(s, step, b);
    }
  }

  // ------------------------------ whole runs ------------------------------

  type Relation = (State, Step, State) -> bool

  ghost function Stepping(): Relation {
    (s, step, s') => Shape(s) && Enabled(s, step) && s' == Apply(s, step)
  }

  ghost predicate Chained(trace: seq<State>, steps: seq<Step>, relation: Relation) {
    && |trace| == |steps| + 1 && trace[0] == INIT
    && forall i :: 0 <= i < |steps| ==> relation(trace[i], steps[i], trace[i + 1])
  }

  ghost predicate IsRun(trace: seq<State>, steps: seq<Step>) {
    Chained(trace, steps, Stepping())
  }

  lemma StepTaken(trace: seq<State>, steps: seq<Step>, i: nat)
    requires IsRun(trace, steps) && i < |steps|
    ensures Shape(trace[i]) && Enabled(trace[i], steps[i]) && trace[i + 1] == Apply(trace[i], steps[i])
  {
    assert Stepping()(trace[i], steps[i], trace[i + 1]);
  }

  lemma {:induction false} RunKeeps(trace: seq<State>, steps: seq<Step>, i: nat)
    requires IsRun(trace, steps) && i < |trace|
    ensures Inv(trace[i])
  {
    if i > 0 {
      RunKeeps(trace, steps, i - 1);
      StepTaken(trace, steps, i - 1);
      StepKeeps(trace[i - 1], steps[i - 1]);
    }
  }

  ghost predicate Live(s: State, t: Token) {
    t in s.loops && s.loops[t].pc != Done && !s.loops[t].cancelled
  }

  /** At most one uncancelled unfinished loop; while no clear is under way, `running` names it. */
  lemma {:induction false} OneLiveLoop(trace: seq<State>, steps: seq<Step>, i: nat)
    requires IsRun(trace, steps) && i < |trace|
    ensures forall t, u :: Live(trace[i], t) && Live(trace[i], u) ==> t == u
    ensures trace[i].draining.None? ==> forall t: Token :: Live(trace[i], t) <==> Running(trace[i].entry) == Some(t)
  {
    RunKeeps(trace, steps, i);
  }

  ghost function Actor(step: Step): Option<Token> {
    match step
    case Schedule(_) => None
    case Clear => None
    case StoreCancel => None
    case LoadBefore(t) => Some(t)
    case StartAction(t) => Some(t)
    case EndAction(t, _) => Some(t)
    case PanicAction(t) => Some(t)
    case LoadAfter(t) => Some(t)
    case Retry(t) => Some(t)
    case Finish(t) => Some(t)
    case Elsewhere => None
  }

  /** A loop that outlived its episode changes neither streak nor `running`, and leaves what the
      episode in force has handed out alone. */
  lemma {:induction false} StaleLoopIsInert(trace: seq<State>, steps: seq<Step>, i: nat, t: Token)
    requires IsRun(trace, steps) && i < |steps|
    requires Actor(steps[i]) == Some(t) && t in trace[i].loops && !Current(trace[i], t)
    ensures trace[i + 1].entry == trace[i].entry
    ensures trace[i].entry.Some? ==>
      |trace[i + 1].episodes| == |trace[i].episodes| > 0
      && trace[i + 1].episodes[|trace[i].episodes| - 1] == trace[i].episodes[|trace[i].episodes| - 1]
  {
    StepTaken(trace, steps, i);
    RunKeeps(trace, steps, i);
  }

  /** The runs a loop can still reach once its key is cleared. */
  ghost function RunsLeft(l: Loop): nat {
    if l.pc == Passed || (l.pc == Sleeping && !l.cancelled) then 1 else 0
  }

  /** A loop whose key has been cleared runs its action at most once more, and only if it had
      read its flag before the clear raised it. */
  lemma {:induction false} ClearedLoopRunsAtMostOnceMore(trace: seq<State>, steps: seq<Step>, i: nat, j: nat, t: Token)
    requires IsRun(trace, steps) && i <= j < |trace|
    requires t in trace[i].loops && !Current(trace[i], t)
    ensures t in trace[j].loops && !Current(trace[j], t)
    ensures trace[j].loops[t].runs + RunsLeft(trace[j].loops[t]) <= trace[i].loops[t].runs + RunsLeft(trace[i].loops[t])
    decreases j - i
  {
    if i < j {
      RunKeeps(trace, steps, i);
      StepTaken(trace, steps, i);
      StaleStep(trace[i], steps[i], t);
      ClearedLoopRunsAtMostOnceMore(trace, steps, i + 1, j, t);
    }
  }

  lemma StaleStep(s: State, step: Step, t: Token)
    requires Inv(s) && Enabled(s, step) && t in s.loops && !Current(s, t)
    ensures var s' := Apply(s, step);
            && t in s'.loops && !Current(s', t)
            && s'.loops[t].runs + RunsLeft(s'.loops[t]) <= s.loops[t].runs + RunsLeft(s.loops[t])
  {
  }

  /** With one fixed budget below `u32::MAX`, the attempts of an episode are exactly 1..k, k <= b,
      over any number of schedules, after waits of 1, 5, 30 and then always 120 seconds; while
      no loop is queued, no failure the budget covers has gone without its attempt. */
  lemma {:induction false} AttemptsAreConsecutive(trace: seq<State>, steps: seq<Step>, i: nat, e: nat, b: u32)
    requires IsRun(trace, steps) && i < |trace| && e < |trace[i].episodes|
    requires trace[i].episodes[e].budgets == {b} && b < U32_MAX
    ensures var handed := trace[i].episodes[e].handed;
            && |handed| <= b
            && (forall j :: 0 <= j < |handed| ==>
                  && handed[j].number == j + 1
                  && handed[j].wait ==
                       if j == 0 then 1_000 else if j == 1 then 5_000 else if j == 2 then 30_000 else 120_000)
            && (e == |trace[i].episodes| - 1 && trace[i].entry.Some? && Running(trace[i].entry).None? ==>
                  |handed| == Min(trace[i].entry.value.streak.failures, b))
  {
    RunKeeps(trace, steps, i);
    assert Fixed(trace[i], b) && Below(trace[i].episodes[e].handed, U32_MAX);
  }

  /** Whatever the budgets: waits never shrink within an episode and never exceed two minutes. */
  lemma {:induction false} WaitsWiden(trace: seq<State>, steps: seq<Step>, i: nat, e: nat)
    requires IsRun(trace, steps) && i < |trace| && e < |trace[i].episodes|
    ensures var handed := trace[i].episodes[e].handed;
            && (forall j :: 0 <= j < |handed| ==> 1_000 <= handed[j].wait <= 120_000)
            && (forall j, k :: 0 <= j < k < |handed| ==> handed[j].wait <= handed[k].wait)
  {
    RunKeeps(trace, steps, i);
    var handed := trace[i].episodes[e].handed;
    assert Below(handed, U32_MAX) && NonDecreasing(handed);
  }

  /** A loop never runs its action more often than its own budget. */
  lemma {:induction false} LoopRunsAreBounded(trace: seq<State>, steps: seq<Step>, i: nat, t: Token)
    requires IsRun(trace, steps) && i < |trace| && t in trace[i].loops
    requires trace[i].loops[t].budget < U32_MAX
    ensures trace[i].loops[t].runs <= trace[i].loops[t].budget
  {
    RunKeeps(trace, steps, i);
    assert LoopCounted(trace[i].loops[t], trace[i].episodes[trace[i].loops[t].episode].handed);
  }

  // ------------------------ the order of one loop's steps ------------------------

  /** Whether loop `t`, its step `done` taken in `s`, may go on with `next`. */
  ghost predicate Continues(s: State, done: Step, t: Token, next: Step) {
    match done
    case Schedule(_) => next == LoadBefore(t)
    case LoadBefore(_) => next == if t in s.loops && s.loops[t].cancelled then Finish(t) else StartAction(t)
    case StartAction(_) => next == PanicAction(t) || next == EndAction(t, true) || next == EndAction(t, false)
    case EndAction(_, again) => next == if again then LoadAfter(t) else Finish(t)
    case LoadAfter(_) => next == if t in s.loops && s.loops[t].cancelled then Finish(t) else Retry(t)
    case Retry(_) => next == if HasAttemptLeft(s, t) then LoadBefore(t) else Finish(t)
    case PanicAction(_) => false
    case Finish(_) => false
    case Clear => false
    case StoreCancel => false
    case Elsewhere => false
  }

  /** The key is still the loop's, and one more failure is within its budget. */
  ghost predicate HasAttemptLeft(s: State, t: Token) {
    && t in s.loops && Running(s.entry) == Some(t)
    && (s.entry.value.streak.failures < s.loops[t].budget || s.loops[t].budget == U32_MAX)
  }

  /** No step but its own moves a loop on. */
  lemma OthersLeaveItsPlace(s: State, step: Step, t: Token)
    requires Shape(s) && Enabled(s, step) && t in s.loops && Actor(step) != Some(t)
    ensures var s' := Apply(s, step);
            t in s'.loops && s'.loops[t] == s.loops[t].(cancelled := s'.loops[t].cancelled)
  {
  }

  /** Only a clear that holds the lock can keep the loop from this step. */
  ghost predicate Placed(s: State, next: Step) {
    Enabled(s.(draining := None), next)
  }

  lemma PlacedIsEnabled(s: State, t: Token, next: Step)
    requires Actor(next) == Some(t)
    ensures Enabled(s, next) <==> Placed(s, next) && (next.Retry? || next.Finish? ==> s.draining.None?)
  {
  }

  lemma ContinuesAtOnce(s: State, step: Step, t: Token, next: Step)
    requires Shape(s) && Enabled(s, step) && t in Apply(s, step).loops && Actor(next) == Some(t)
    requires Actor(step) == Some(t) || t !in s.loops
    ensures Placed(Apply(s, step), next) <==> Continues(s, step, t, next)
  {
  }

  lemma PlaceStays(s: State, s': State, t: Token, next: Step)
    requires t in s.loops && t in s'.loops && s'.loops[t].pc == s.loops[t].pc && Actor(next) == Some(t)
    ensures Placed(s', next) == Placed(s, next)
  {
  }

  lemma {:induction false} LoopKeepsItsPlace(trace: seq<State>, steps: seq<Step>, i: nat, j: nat, t: Token, next: Step)
    requires IsRun(trace, steps) && i < j < |trace| && t in trace[i + 1].loops && Actor(next) == Some(t)
    requires Actor(steps[i]) == Some(t) || t !in trace[i].loops
    requires forall k :: i < k < j ==> Actor(steps[k]) != Some(t)
    ensures t in trace[j].loops && (Placed(trace[j], next) <==> Continues(trace[i], steps[i], t, next))
    decreases j
  {
    StepTaken(trace, steps, j - 1);
    if j == i + 1 {
      ContinuesAtOnce(trace[i], steps[i], t, next);
    } else {
      LoopKeepsItsPlace(trace, steps, i, j - 1, t, next);
      OthersLeaveItsPlace(trace[j - 1], steps[j - 1], t);
      PlaceStays(trace[j - 1], trace[j], t, next);
    }
  }

  /** A loop does what `retry_loop` says, in that order, whatever runs in between: it sleeps, reads its
      flag, runs the action, reads its flag again if that asked for more, notes the retry, and begins
      again exactly while the key is its own and has an attempt left. */
  lemma LoopFollowsItsProgram(trace: seq<State>, steps: seq<Step>, i: nat, j: nat, t: Token, next: Step)
    requires IsRun(trace, steps) && i < j < |trace| && t in trace[i + 1].loops && Actor(next) == Some(t)
    requires Actor(steps[i]) == Some(t) || t !in trace[i].loops
    requires forall k :: i < k < j ==> Actor(steps[k]) != Some(t)
    ensures Enabled(trace[j], next) <==>
              && Continues(trace[i], steps[i], t, next)
              && (next.Retry? || next.Finish? ==> trace[j].draining.None?)
  {
    LoopKeepsItsPlace(trace, steps, i, j, t, next);
    PlacedIsEnabled(trace[j], t, next);
  }

  /** The loop will run its action no more. */
  ghost predicate Ending(s: State, t: Token) {
    t in s.loops && (s.loops[t].pc == Finishing || s.loops[t].pc == Done)
  }

  lemma EndingStep(s: State, step: Step, t: Token)
    requires Shape(s) && Enabled(s, step) && Ending(s, t)
    ensures var s' := Apply(s, step);
            && Ending(s', t) && s'.loops[t].runs == s.loops[t].runs
            && step != Retry(t) && step != StartAction(t)
            && (step == Finish(t) || s.loops[t].pc == Done ==> s'.loops[t].pc == Done)
  {
  }

  /** Its last step is among these. */
  ghost predicate Finishes(steps: seq<Step>, i: nat, j: nat, t: Token) {
    exists k :: i <= k < j <= |steps| && steps[k] == Finish(t)
  }

  lemma {:induction false} EndingTail(trace: seq<State>, steps: seq<Step>, i: nat, j: nat, t: Token)
    requires IsRun(trace, steps) && i <= j < |trace| && Ending(trace[i], t)
    ensures Ending(trace[j], t) && trace[j].loops[t].runs == trace[i].loops[t].runs
    ensures forall k :: i <= k < j ==> steps[k] != Retry(t) && steps[k] != StartAction(t)
    ensures Finishes(steps, i, j, t) ==> trace[j].loops[t].pc == Done
    decreases j
  {
    if i < j {
      EndingTail(trace, steps, i, j - 1, t);
      StepTaken(trace, steps, j - 1);
      EndingStep(trace[j - 1], steps[j - 1], t);
      if Finishes(steps, i, j, t) && steps[j - 1] != Finish(t) {
        assert Finishes(steps, i, j - 1, t);
      }
    }
  }

  /** An action that says stop ends its loop for good: the loop runs it no more and notes no further
      failure, and once it has finished the key is not its own. */
  lemma {:induction false} StopEndsTheLoop(trace: seq<State>, steps: seq<Step>, i: nat, j: nat, t: Token)
    requires IsRun(trace, steps) && i < j < |trace| && steps[i] == EndAction(t, false)
    ensures t in trace[i + 1].loops && t in trace[j].loops && trace[j].loops[t].runs == trace[i + 1].loops[t].runs
    ensures forall k :: i <= k < j ==> steps[k] != Retry(t) && steps[k] != StartAction(t)
    ensures Finishes(steps, i, j, t) ==> trace[j].loops[t].pc == Done && Running(trace[j].entry) != Some(t)
  {
    StepTaken(trace, steps, i);
    EndingTail(trace, steps, i + 1, j, t);
    DoneHoldsNothing(trace, steps, j, t);
  }

  lemma DoneHoldsNothing(trace: seq<State>, steps: seq<Step>, j: nat, t: Token)
    requires IsRun(trace, steps) && j < |trace|
    ensures IsAt(trace[j], t, Done) ==> Running(trace[j].entry) != Some(t)
  {
    RunKeeps(trace, steps, j);
  }

  // ------------------------ what is counted ------------------------

  ghost function Failures(s: State): nat {
    if s.entry.Some? then s.entry.value.streak.failures else 0
  }

  /** The failures noted since the key was last cleared: each schedule that found it idle, and each
      retry by the loop it was waiting on. */
  ghost function FailuresNoted(trace: seq<State>, steps: seq<Step>, i: nat): nat
    requires i <= |steps| < |trace|
  {
    if i == 0 || steps[i - 1] == Clear then 0
    else
      FailuresNoted(trace, steps, i - 1) +
      match steps[i - 1]
      case Schedule(_) => if Running(trace[i - 1].entry).None? then 1 else 0
      case Retry(t) => if Running(trace[i - 1].entry) == Some(t) then 1 else 0
      case _ => 0
  }

  lemma FailuresStep(s: State, step: Step)
    requires Shape(s) && Enabled(s, step)
    ensures var (s', f) := (Apply(s, step), Failures(s));
            && Failures(s') == (
                 if step == Clear then 0
                 else if step.Schedule? && Running(s.entry).None? then Saturating(f + 1)
                 else if step.Retry? && Running(s.entry) == Some(step.t) then Saturating(f + 1)
                 else f)
            && (s'.entry.Some? <==> step != Clear && (s.entry.Some? || step.Schedule?))
  {
  }

  /** The streak counts exactly those failures, up to the top of `u32`. */
  lemma {:induction false} StreakCountsFailures(trace: seq<State>, steps: seq<Step>, i: nat)
    requires IsRun(trace, steps) && i < |trace|
    ensures Failures(trace[i]) == Saturating(FailuresNoted(trace, steps, i))
    ensures trace[i].entry.Some? <==> FailuresNoted(trace, steps, i) > 0
  {
    if i > 0 {
      StreakCountsFailures(trace, steps, i - 1);
      StepTaken(trace, steps, i - 1);
      FailuresStep(trace[i - 1], steps[i - 1]);
    }
  }

  ghost function Starts(steps: seq<Step>, t: Token, i: nat): nat
    requires i <= |steps|
  {
    if i == 0 then 0 else Starts(steps, t, i - 1) + if steps[i - 1] == StartAction(t) then 1 else 0
  }

  /** A loop's runs are the starts of its action. */
  lemma {:induction false} RunsAreStarts(trace: seq<State>, steps: seq<Step>, i: nat, t: Token)
    requires IsRun(trace, steps) && i < |trace|
    ensures Starts(steps, t, i) == if t in trace[i].loops then trace[i].loops[t].runs else 0
  {
    if i > 0 {
      RunsAreStarts(trace, steps, i - 1, t);
      StepTaken(trace, steps, i - 1);
    }
  }

  ghost predicate Reachable(s: State) {
    exists trace, steps :: IsRun(trace, steps) && trace[|steps|] == s
  }

  lemma ReachBegins()
    ensures Reachable(INIT)
  {
    var steps: seq<Step> := [];
    assert IsRun([INIT], steps) && [INIT][|steps|] == INIT;
  }

  lemma RunExtends(trace: seq<State>, steps: seq<Step>, relation: Relation, step: Step, s: State)
    requires Chained(trace, steps, relation) && relation(trace[|steps|], step, s)
    ensures Chained(trace + [s], steps + [step], relation)
  {
  }

  lemma ReachNext(s: State, step: Step)
    requires Reachable(s) && Shape(s) && Enabled(s, step)
    ensures Reachable(Apply(s, step))
  {
    var trace, steps :| IsRun(trace, steps) && trace[|steps|] == s;
    var s' := Apply(s, step);
    RunExtends(trace, steps, Stepping(), step, s');
    assert IsRun(trace + [s'], steps + [step]) && (trace + [s'])[|steps + [step]|] == s';
  }

  // ------------------------ a budget at the top of u32 ------------------------

  function Saturating(n: nat): u32 {
    if n < U32_MAX then n else U32_MAX
  }

  function AttemptAt(n: nat): Attempt {
    Attempt(Saturating(n), WaitFor(Saturating(n)))
  }

  /** The key's first loop, its flag never raised, at its `n`th attempt. */
  ghost function Looping(budget: u32, n: nat, pc: Pc, handed: seq<Attempt>): State {
    State(Some(RetryState(FailureStreak(Saturating(n)), Some(0))),
          map[0 := Loop(budget, AttemptAt(n), pc, false, 0, |handed|)], 1, None,
          [Episode({budget}, Some(0), handed)])
  }

  lemma LoopingBegins(budget: u32)
    requires budget >= 1
    ensures Reachable(Looping(budget, 1, Sleeping, []))
  {
    ReachBegins();
    ReachNext(INIT, Schedule(budget));
  }

  lemma LoopingPasses(budget: u32, n: nat, handed: seq<Attempt>)
    requires Reachable(Looping(budget, n, Sleeping, handed))
    ensures Reachable(Looping(budget, n, Passed, handed))
  {
    ReachNext(Looping(budget, n, Sleeping, handed), LoadBefore(0));
  }

  lemma LoopingStarts(budget: u32, n: nat, handed: seq<Attempt>)
    requires Reachable(Looping(budget, n, Passed, handed))
    ensures Reachable(Looping(budget, n, Acting, handed + [AttemptAt(n)]))
  {
    ReachNext(Looping(budget, n, Passed, handed), StartAction(0));
  }

  lemma LoopingEnds(budget: u32, n: nat, handed: seq<Attempt>)
    requires Reachable(Looping(budget, n, Acting, handed))
    ensures Reachable(Looping(budget, n, Acted, handed)) && Reachable(Looping(budget, n, Panicked, handed))
  {
    ReachNext(Looping(budget, n, Acting, handed), EndAction(0, true));
    ReachNext(Looping(budget, n, Acting, handed), PanicAction(0));
  }

  lemma LoopingLoads(budget: u32, n: nat, handed: seq<Attempt>)
    requires Reachable(Looping(budget, n, Acted, handed))
    ensures Reachable(Looping(budget, n, Retrying, handed))
  {
    ReachNext(Looping(budget, n, Acted, handed), LoadAfter(0));
  }

  lemma LoopingRetries(n: nat, handed: seq<Attempt>)
    requires Reachable(Looping(U32_MAX, n, Retrying, handed)) && n >= 1
    ensures Reachable(Looping(U32_MAX, n + 1, Sleeping, handed))
  {
    ReachNext(Looping(U32_MAX, n, Retrying, handed), Retry(0));
  }

  function AttemptsUpTo(n: nat): seq<Attempt> {
    if n == 0 then [] else AttemptsUpTo(n - 1) + [AttemptAt(n)]
  }

  lemma {:induction false} LoopingGoesOn(n: nat)
    ensures Reachable(Looping(U32_MAX, n + 1, Sleeping, AttemptsUpTo(n))) && |AttemptsUpTo(n)| == n
  {
    if n == 0 {
      LoopingBegins(U32_MAX);
    } else {
      var before, handed := AttemptsUpTo(n - 1), AttemptsUpTo(n);
      LoopingGoesOn(n - 1);
      LoopingPasses(U32_MAX, n, before);
      LoopingStarts(U32_MAX, n, before);
      LoopingEnds(U32_MAX, n, handed);
      LoopingLoads(U32_MAX, n, handed);
      LoopingRetries(n, handed);
    }
  }

  ghost predicate Overran(s: State, t: Token) {
    t in s.loops && s.loops[t].episode < |s.episodes| && s.loops[t].runs > s.loops[t].budget
  }

  /** With the top budget a loop runs past it, and is handed one attempt number twice. */
  lemma TopBudgetRepeats()
    ensures exists s :: Reachable(s) && Overran(s, 0) && s.loops[0].budget == U32_MAX
                        && !Consecutive(s.episodes[s.loops[0].episode].handed)
  {
    var n := U32_MAX + 1;
    LoopingGoesOn(n);
    var s := Looping(U32_MAX, n + 1, Sleeping, AttemptsUpTo(n));
    assert AttemptsUpTo(n)[n - 1] == AttemptAt(n);
    assert Reachable(s) && Overran(s, 0);
  }

  /** The budget bounds the runs of every loop, in every reachable state, exactly when it is below
      the top of `u32`, where the count saturates and every further attempt gets the same number. */
  lemma RunsAreBoundedIff(budget: u32)
    ensures (forall s, t: Token :: Reachable(s) && t in s.loops && s.loops[t].budget == budget ==> !Overran(s, t))
            <==> budget < 0xFFFF_FFFF
  {
    if budget < U32_MAX {
      forall s, t: Token | Reachable(s) && t in s.loops && s.loops[t].budget == budget ensures !Overran(s, t) {
        var trace, steps :| IsRun(trace, steps) && trace[|steps|] == s;
        LoopRunsAreBounded(trace, steps, |steps|, t);
      }
    } else {
      TopBudgetRepeats();
    }
  }

  // ------------------------ an action that panics ------------------------

  /** The loop of a panicked action is still the one that `running` names. */
  ghost predicate Wedged(s: State, t: Token) {
    t in s.loops && s.loops[t].pc == Panicked && Running(s.entry) == Some(t)
  }

  /** The first action a key ever runs can already leave it so. */
  lemma PanicCanWedge()
    ensures exists s :: Reachable(s) && Wedged(s, 0)
  {
    LoopingBegins(1);
    LoopingPasses(1, 1, []);
    LoopingStarts(1, 1, []);
    LoopingEnds(1, 1, [] + [AttemptAt(1)]);
    assert Wedged(Looping(1, 1, Panicked, [] + [AttemptAt(1)]), 0);
  }

  lemma WedgedStep(s: State, step: Step, t: Token)
    requires Inv(s) && Enabled(s, step) && Wedged(s, t)
    ensures var s' := Apply(s, step);
            && (step != Clear ==> Wedged(s', t) && s'.loops.Keys == s.loops.Keys && s'.entry == s.entry)
            && (step == Clear ==> !Current(s', t) && s'.entry.None?)
  {
  }

  lemma {:induction false} WedgedTail(trace: seq<State>, steps: seq<Step>, i: nat, j: nat, t: Token)
    requires IsRun(trace, steps) && i <= j < |trace| && Wedged(trace[i], t)
    requires forall k :: i <= k < j ==> steps[k] != Clear
    ensures Wedged(trace[j], t) && trace[j].loops.Keys == trace[i].loops.Keys && trace[j].entry == trace[i].entry
    decreases j - i
  {
    if i < j {
      RunKeeps(trace, steps, i);
      StepTaken(trace, steps, i);
      WedgedStep(trace[i], steps[i], t);
      WedgedTail(trace, steps, i + 1, j, t);
    }
  }

  /** A panicked action keeps its key busy exactly until the key is cleared; until then nothing is
      queued and no failure is counted, and from then on this loop never holds the key again. */
  lemma {:induction false} PanickedKeyIsBusyUntilCleared(trace: seq<State>, steps: seq<Step>, i: nat, j: nat, t: Token)
    requires IsRun(trace, steps) && i <= j < |trace| && Wedged(trace[i], t)
    ensures Wedged(trace[j], t) <==> forall k :: i <= k < j ==> steps[k] != Clear
    ensures Wedged(trace[j], t) ==> trace[j].loops.Keys == trace[i].loops.Keys && trace[j].entry == trace[i].entry
  {
    if k :| i <= k < j && steps[k] == Clear && forall l :: i <= l < k ==> steps[l] != Clear {
      WedgedTail(trace, steps, i, k, t);
      RunKeeps(trace, steps, k);
      StepTaken(trace, steps, k);
      WedgedStep(trace[k], Clear, t);
      ClearedLoopRunsAtMostOnceMore(trace, steps, k + 1, j, t);
      RunKeeps(trace, steps, j);
    } else {
      FirstClear(steps, i, j);
      WedgedTail(trace, steps, i, j, t);
    }
  }

  lemma {:induction false} FirstClear(steps: seq<Step>, i: nat, j: nat)
    requires i <= j <= |steps|
    requires !exists k :: i <= k < j && steps[k] == Clear && forall l :: i <= l < k ==> steps[l] != Clear
    ensures forall k :: i <= k < j ==> steps[k] != Clear
  {
    if i < j { FirstClear(steps, i, j - 1); }
  }

  lemma ClearsToNothing(s: State)
    requires Shape(s) && s.draining.None? && Running(s.entry).Some?
    ensures var cleared := Apply(s, Clear);
            && Shape(cleared) && Enabled(cleared, StoreCancel)
            && var free := Apply(cleared, StoreCancel);
               && Shape(free) && free.entry.None? && free.draining.None?
               && free.loops.Keys == s.loops.Keys && free.nextToken == s.nextToken
  {
  }

  lemma SchedulesAfresh(s: State, budget: u32)
    requires Shape(s) && s.entry.None? && s.draining.None?
    ensures var s' := Apply(s, Schedule(budget));
            if budget >= 1 then
              && Running(s'.entry) == Some(s.nextToken) && s'.loops.Keys == s.loops.Keys + {s.nextToken}
              && s'.loops[s.nextToken].attempt == Attempt(1, 1_000) && s'.loops[s.nextToken].pc == Sleeping
            else Running(s'.entry).None? && s'.loops == s.loops
  {
  }

  /** Once it has been cleared the key is free: the next schedule with any budget queues the first
      attempt of a new loop. */
  lemma {:induction false} ClearFreesTheKey(trace: seq<State>, steps: seq<Step>, i: nat, t: Token, budget: u32)
    requires IsRun(trace, steps) && i + 3 < |trace| && Wedged(trace[i], t)
    requires steps[i] == Clear && steps[i + 1] == StoreCancel && steps[i + 2] == Schedule(budget)
    ensures var (s, u) := (trace[i + 3], trace[i].nextToken);
            if budget >= 1 then
              && Running(s.entry) == Some(u) && s.loops.Keys == trace[i].loops.Keys + {u}
              && s.loops[u].attempt == Attempt(1, 1_000) && s.loops[u].pc == Sleeping
            else Running(s.entry).None? && s.loops.Keys == trace[i].loops.Keys
  {
    StepTaken(trace, steps, i);
    StepTaken(trace, steps, i + 1);
    StepTaken(trace, steps, i + 2);
    ClearsToNothing(trace[i]);
    SchedulesAfresh(trace[i + 2], budget);
  }
}
