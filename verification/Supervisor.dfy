/** Supervised tasks: each manager restarts its child, and shutdown joins every manager. */
module Supervisor {
  const MAX_FAILURES := 3

  datatype Outcome = Exited | Panicked | Cancelled

  datatype Reason = Child(outcome: Outcome) | SupervisorTimeout

  datatype TaskState = NotStarted | Running | Restarting | Stopping | Stopped | Failed(reason: Reason)

  /** A child task: running, told to abort but not yet gone, or gone. */
  datatype Child = Alive | Aborted | Finished

  /** Where a manager stands. At `Starting`, `Watching`, `Halting`, `Draining`, `Notifying` and
      `Sleeping` it awaits, and only there can it be cancelled. */
  datatype Place =
    | Top | Starting | Started | Watching | Reporting(outcome: Outcome) | Notifying | Sleeping(seconds: nat)
    | Halting | Draining | Halted | Leaving | Returned | Dropped

  /** One supervised task: its manager, its published state, every child started so far, and the
      shutdown channel: its value, whether that is unseen, and whether the sender is gone. */
  datatype Task = Task(
    place: Place, state: TaskState, failures: nat, children: seq<Child>,
    asked: bool, unseen: bool, senderGone: bool, aborting: bool, expired: bool)

  const REGISTERED := Task(Top, NotStarted, 0, [], false, false, false, false, false)

  predicate Awaits(p: Place) {
    p.Starting? || p.Watching? || p.Halting? || p.Draining? || p.Notifying? || p.Sleeping?
  }

  predicate Ended(p: Place) {
    p.Returned? || p.Dropped?
  }

  /** What a manager, its child or the clock does next. */
  datatype Move =
    | Check
    | Start
    | Publish
    | Wake
    | ChildResult(outcome: Outcome)
    | ChildGone
    | StopTimeout
    | Report
    | Notified
    | SleepOver
    | Leave
    | Cancel
    | ChildEnds

  function LastChild(t: Task): Child {
    if t.children == [] then Finished else t.children[|t.children| - 1]
  }

  function WithLast(t: Task, c: Child): Task {
    if t.children == [] then t else t.(children := t.children[..|t.children| - 1] + [c])
  }

  /** Dropping a `TaskHandle` aborts a child that still runs. */
  function HandleDropped(t: Task): Task {
    if LastChild(t).Alive? then WithLast(t, Aborted) else t
  }

  predicate Enabled(t: Task, m: Move) {
    match m
    case Check => t.place.Top?
    case Start => t.place.Starting?
    case Publish => t.place.Started? || t.place.Halted?
    case Wake => (t.place.Starting? || t.place.Watching? || t.place.Sleeping?) && (t.unseen || t.senderGone)
    case ChildResult(_) => t.place.Watching? && LastChild(t).Finished?
    case ChildGone => (t.place.Halting? || t.place.Draining?) && LastChild(t).Finished?
    case StopTimeout => t.place.Halting? && !LastChild(t).Finished?
    case Report => t.place.Reporting?
    case Notified => t.place.Notifying?
    case SleepOver => t.place.Sleeping?
    case Leave => t.place.Leaving?
    case Cancel => t.aborting && Awaits(t.place)
    case ChildEnds => !LastChild(t).Finished?
  }

  /** `changed` returned: stop if the sender is gone or the value is set, else go on. */
  function Woken(t: Task): Task {
    var u := t.(unseen := false);
    var stop := t.senderGone || t.asked;
    if !stop then HandleDropped(u).(place := Top)
    else if t.place.Watching? then u.(state := Stopping, place := Halting)
    else u.(state := Stopped, place := Leaving)
  }

  /** `1 << n` */
  function Doubled(n: nat): nat {
    if n == 0 then 1 else 2 * Doubled(n - 1)
  }

  function Moved(t: Task, m: Move): Task {
    match m
    case Check => if t.asked then t.(state := Stopped, place := Leaving) else t.(place := Starting)
    case Start => t.(children := t.children + [Alive], place := Started)
    case Publish =>
      if t.place.Started? then t.(state := Running, place := Watching) else t.(state := Stopped, place := Leaving)
    case Wake => Woken(t)
    case ChildResult(outcome) => t.(place := Reporting(outcome))
    case ChildGone => t.(place := Halted)
    case StopTimeout => HandleDropped(t).(place := Draining)
    case Report =>
      t.(failures := t.failures + 1,
         state := Failed(Child(if t.place.Reporting? then t.place.outcome else Exited)),
         place := Notifying)
    case Notified =>
      if t.failures >= MAX_FAILURES then t.(place := Leaving)
      else t.(state := Restarting, place := Sleeping(Doubled(if t.failures == 0 then 0 else t.failures - 1)))
    case SleepOver => t.(place := Top)
    case Leave => t.(place := Returned)
    case Cancel => HandleDropped(t).(place := Place.Dropped)
    case ChildEnds => WithLast(t, Finished)
  }

  // ------------------------------ shutdown ------------------------------

  /** Where `shutdown` stands: not called, asking every manager to stop, waiting for the next one,
      waiting for one it had to abort, done; or never to be called, the supervisor being dropped. */
  datatype Shutdown = Never | Signalling(next: nat) | Joining(next: nat) | Reaping(next: nat) | Over | Abandoned

  datatype System = System(tasks: seq<Task>, shutdown: Shutdown)

  datatype Step =
    | Register
    | Manager(i: nat, move: Move)
    | Call
    | Signal
    | Joined
    | Expire
    | Reaped
    | DropSupervisor

  predicate CanStep(s: System, step: Step) {
    match step
    case Register => s.shutdown.Never?
    case Manager(i, move) => i < |s.tasks| && Enabled(s.tasks[i], move)
    case Call => s.shutdown.Never?
    case Signal => s.shutdown.Signalling?
    case Joined =>
      s.shutdown.Joining? && (s.shutdown.next >= |s.tasks| || Ended(s.tasks[s.shutdown.next].place))
    case Expire =>
      s.shutdown.Joining? && s.shutdown.next < |s.tasks| && !Ended(s.tasks[s.shutdown.next].place)
    case Reaped =>
      s.shutdown.Reaping? && s.shutdown.next < |s.tasks| && Ended(s.tasks[s.shutdown.next].place)
    case DropSupervisor => s.shutdown.Never?
  }

  function Asked(t: Task): Task {
    t.(asked := true, unseen := true)
  }

  function SendersGone(tasks: seq<Task>): (r: seq<Task>)
    ensures |r| == |tasks| && forall i :: 0 <= i < |r| ==> r[i] == tasks[i].(senderGone := true)
  {
    if tasks == [] then [] else [tasks[0].(senderGone := true)] + SendersGone(tasks[1..])
  }

  function Stepped(s: System, step: Step): System
    requires CanStep(s, step)
  {
    match step
    case Register => s.(tasks := s.tasks + [REGISTERED])
    case Manager(i, move) => s.(tasks := s.tasks[i := Moved(s.tasks[i], move)])
    case Call => s.(shutdown := Signalling(0))
    case Signal =>
      var i := s.shutdown.next;
      if i >= |s.tasks| then s.(shutdown := Joining(0))
      else System(s.tasks[i := Asked(s.tasks[i])], Signalling(i + 1))
    case Joined =>
      if s.shutdown.next >= |s.tasks| then s.(shutdown := Over)
      else s.(shutdown := Joining(s.shutdown.next + 1))
    case Expire =>
      var i := s.shutdown.next;
      System(s.tasks[i := s.tasks[i].(aborting := true, expired := true)], Reaping(i))
    case Reaped =>
      var i := s.shutdown.next;
      System(s.tasks[i := s.tasks[i].(state := Failed(SupervisorTimeout))], Joining(i + 1))
    case DropSupervisor => System(SendersGone(s.tasks), Abandoned)
  }

  const INITIAL := System([], Never)

  ghost predicate Leads(before: System, step: Step, after: System) {
    CanStep(before, step) && after == Stepped(before, step)
  }

  /** A run: any interleaving of registrations, managers, children, clocks and one shutdown. */
  ghost predicate IsRun(states: seq<System>, steps: seq<Step>) {
    && |states| == |steps| + 1 && states[0] == INITIAL
    && forall i :: 0 <= i < |steps| ==> Leads(states[i], steps[i], states[i + 1])
  }

  // ------------------------------ one task ------------------------------

  /** How many children have been started, by where the manager stands. */
  predicate Counted(t: Task) {
    match t.place
    case Top => |t.children| == t.failures < MAX_FAILURES
    case Starting => |t.children| == t.failures < MAX_FAILURES
    case Sleeping(_) => |t.children| == t.failures < MAX_FAILURES
    case Notifying => |t.children| == t.failures <= MAX_FAILURES
    case Leaving => t.failures <= |t.children| <= MAX_FAILURES
    case Returned => t.failures <= |t.children| <= MAX_FAILURES
    case Dropped => t.failures <= |t.children| <= MAX_FAILURES
    case _ => |t.children| == t.failures + 1 <= MAX_FAILURES
  }

  /** Only the last child can still be there, and only while its manager holds it or after that
      was cancelled, when it has been told to abort. */
  ghost predicate OneChild(t: Task) {
    && (forall i :: 0 <= i < |t.children| - 1 ==> t.children[i].Finished?)
    && (LastChild(t).Alive? ==> t.place.Started? || t.place.Watching? || t.place.Halting?)
    && (LastChild(t).Aborted? ==> t.place.Draining? || t.place.Dropped?)
  }

  /** The published state, by where the manager stands. */
  predicate Told(t: Task) {
    match t.place
    case Top => t.state.NotStarted? || t.state.Restarting?
    case Starting => t.state.NotStarted? || t.state.Restarting?
    case Started => t.state.NotStarted? || t.state.Restarting?
    case Watching => t.state.Running?
    case Reporting(_) => t.state.Running?
    case Notifying => t.state.Failed? && t.state.reason.Child? && t.failures >= 1
    case Sleeping(n) => t.state.Restarting? && n == t.failures
    case Halting => t.state.Stopping?
    case Draining => t.state.Stopping?
    case Halted => t.state.Stopping?
    case Leaving => LeftAs(t)
    case Returned => LeftAs(t) || (t.expired && t.state == Failed(SupervisorTimeout))
    case Dropped => t.expired
  }

  /** A manager leaves when it was stopped, or after exactly three failures of its child. */
  predicate LeftAs(t: Task) {
    t.state.Stopped? || (t.state.Failed? && t.state.reason.Child? && t.failures == MAX_FAILURES)
  }

  predicate Flags(t: Task) {
    (t.unseen ==> t.asked) && (t.aborting <==> t.expired)
  }

  ghost predicate Fits(t: Task) {
    Counted(t) && OneChild(t) && Told(t) && Flags(t)
  }

  lemma MoveKeepsCount(t: Task, m: Move)
    requires Counted(t) && Flags(t) && Enabled(t, m)
    ensures Counted(Moved(t, m))
  {
  }

  lemma MoveKeepsOneChild(t: Task, m: Move)
    requires OneChild(t) && Flags(t) && Enabled(t, m)
    ensures OneChild(Moved(t, m))
  {
  }

  lemma MoveKeepsState(t: Task, m: Move)
    requires Counted(t) && Told(t) && Flags(t) && Enabled(t, m)
    ensures Told(Moved(t, m)) && Flags(Moved(t, m))
  {
    assert Doubled(0) == 1 && Doubled(1) == 2;
  }

  lemma MoveKeeps(t: Task, m: Move)
    requires Fits(t) && Enabled(t, m)
    ensures Fits(Moved(t, m))
  {
    MoveKeepsCount(t, m);
    MoveKeepsOneChild(t, m);
    MoveKeepsState(t, m);
  }

  /** A manager is only ever woken to stop: the branches that go round the loop again are dead. */
  lemma WakesOnlyToStop(t: Task)
    requires Fits(t) && Enabled(t, Wake)
    ensures (t.senderGone || t.asked) && (Moved(t, Wake).place.Halting? || Moved(t, Wake).place.Leaving?)
  {
  }

  // ------------------------------ the whole supervisor ------------------------------

  /** Joined: the manager has ended, and the state says how. */
  ghost predicate Settled(t: Task) {
    && Ended(t.place)
    && if t.expired then t.state == Failed(SupervisorTimeout) else LeftAs(t)
  }

  /** What shutdown has done to task `i` by now. */
  ghost predicate Progress(t: Task, i: nat, shutdown: Shutdown) {
    match shutdown
    case Never => !t.expired
    case Abandoned => !t.expired
    case Signalling(n) => !t.expired && (i < n ==> t.asked)
    case Joining(n) => t.asked && if i < n then Settled(t) else !t.expired
    case Reaping(n) => t.asked && if i < n then Settled(t) else (t.expired <==> i == n)
    case Over => t.asked && Settled(t)
  }

  ghost predicate Member(s: System, i: nat)
    requires i < |s.tasks|
  {
    Fits(s.tasks[i]) && Progress(s.tasks[i], i, s.shutdown)
  }

  ghost predicate Inv(s: System) {
    forall i :: 0 <= i < |s.tasks| ==> Member(s, i)
  }

  lemma MoveKeepsProgress(t: Task, i: nat, shutdown: Shutdown, m: Move)
    requires Fits(t) && Progress(t, i, shutdown) && Enabled(t, m)
    ensures Progress(Moved(t, m), i, shutdown)
  {
  }

  lemma StepKeepsMember(s: System, step: Step, i: nat)
    requires Inv(s) && CanStep(s, step) && i < |Stepped(s, step).tasks|
    ensures Member(Stepped(s, step), i)
  {
    assert i < |s.tasks| ==> Member(s, i);
    match step
    case Manager(j, m) =>
      if i == j {
        MoveKeeps(s.tasks[i], m);
        MoveKeepsProgress(s.tasks[i], i, s.shutdown, m);
      }
    case _ =>
  }

  lemma StepKeeps(s: System, step: Step)
    requires Inv(s) && CanStep(s, step)
    ensures Inv(Stepped(s, step))
  {
    forall i | 0 <= i < |Stepped(s, step).tasks| ensures Member(Stepped(s, step), i) {
      StepKeepsMember(s, step, i);
    }
  }

  lemma {:induction false} RunKeeps(states: seq<System>, steps: seq<Step>, k: nat)
    requires IsRun(states, steps) && k < |states|
    ensures Inv(states[k])
  {
    if k > 0 {
      RunKeeps(states, steps, k - 1);
      assert Leads(states[k - 1], steps[k - 1], states[k]);
      StepKeeps(states[k - 1], steps[k - 1]);
    }
  }

  /** In every state of every run at most three children have been started for a task, and all but
      the last of them are gone: no two ever run at once. A manager that sleeps before a restart
      sleeps one second after the first failure and two after the second. */
  lemma AtMostThreeChildrenOneAtATime(states: seq<System>, steps: seq<Step>, k: nat, i: nat)
    requires IsRun(states, steps) && k < |states| && i < |states[k].tasks|
    ensures var t := states[k].tasks[i];
            && |t.children| <= 3 && t.failures <= |t.children|
            && (t.place.Sleeping? ==> t.place.seconds == t.failures <= 2)
            && forall c :: 0 <= c < |t.children| - 1 ==> t.children[c].Finished?
  {
    RunKeeps(states, steps, k);
    assert Member(states[k], i);
  }

  /** When shutdown returns every manager has ended, stopped, given up after three failures, or
      timed out, the last exactly when its join did; and no child runs on that was not aborted. */
  lemma ShutdownSettles(states: seq<System>, steps: seq<Step>, k: nat, i: nat)
    requires IsRun(states, steps) && k < |states| && states[k].shutdown.Over? && i < |states[k].tasks|
    ensures var t := states[k].tasks[i];
            && Ended(t.place)
            && (t.state.Stopped? || t.state.Failed?)
            && (t.state == Failed(SupervisorTimeout) <==> t.expired)
            && (t.state.Failed? && !t.expired ==> t.failures == 3)
            && forall c :: 0 <= c < |t.children| ==> !t.children[c].Alive?
  {
    RunKeeps(states, steps, k);
    assert Member(states[k], i);
    var t := states[k].tasks[i];
    forall c | 0 <= c < |t.children| ensures !t.children[c].Alive? {
      assert c == |t.children| - 1 ==> t.children[c] == LastChild(t);
    }
  }

  /** `Stopped` is final but for one step: it is left exactly when shutdown, whose wait for this
      manager ran out, writes its timeout over it. */
  lemma StoppedIsLeftIff(states: seq<System>, steps: seq<Step>, k: nat, i: nat)
    requires IsRun(states, steps) && k < |steps| && i < |states[k].tasks| && states[k].tasks[i].state.Stopped?
    ensures i < |states[k + 1].tasks|
    ensures !states[k + 1].tasks[i].state.Stopped? <==> steps[k].Reaped? && states[k].shutdown.next == i
  {
    RunKeeps(states, steps, k);
    assert Member(states[k], i);
    assert Leads(states[k], steps[k], states[k + 1]);
  }

  // ------------------------------ what a manager does, move by move ------------------------------

  predicate IsManagers(step: Step, i: nat) {
    step.Manager? && step.i == i && !step.move.ChildEnds?
  }

  predicate Signalled(t: Task) {
    t.unseen || t.senderGone
  }

  /** Whether a manager whose last move was `m`, made of `before`, may now make the move `next`: it starts a
      child unless asked to stop, reports how the child ended, and after a pause begins again until the third
      failure; once signalled it stops the child, waits for it, and leaves. Where it waits it can be
      cancelled. */
  predicate MayFollow(before: Task, m: Move, now: Task, next: Move) {
    match m
    case Check =>
      if before.asked then next.Leave?
      else next.Start? || (next.Wake? && Signalled(now)) || (next.Cancel? && now.aborting)
    case Start => next.Publish?
    case Publish =>
      if before.state.Stopping? then next.Leave?
      else
        || (next.ChildResult? && LastChild(now).Finished?)
        || (next.Wake? && Signalled(now)) || (next.Cancel? && now.aborting)
    case ChildResult(_) => next.Report?
    case Report => next.Notified? || (next.Cancel? && now.aborting)
    case Notified =>
      if before.failures == 3 then next.Leave?
      else next.SleepOver? || (next.Wake? && Signalled(now)) || (next.Cancel? && now.aborting)
    case SleepOver => next.Check?
    case Wake =>
      if !before.state.Running? then next.Leave?
      else
        || (next.ChildGone? && LastChild(now).Finished?) || (next.StopTimeout? && !LastChild(now).Finished?)
        || (next.Cancel? && now.aborting)
    case StopTimeout => (next.ChildGone? && LastChild(now).Finished?) || (next.Cancel? && now.aborting)
    case ChildGone => next.Publish?
    case Leave => false
    case Cancel => false
    case ChildEnds => false
  }

  lemma MoveLeadsOn(before: Task, m: Move, now: Task, next: Move)
    requires Fits(before) && Enabled(before, m) && !m.ChildEnds? && !next.ChildEnds?
    requires now.place == Moved(before, m).place
    ensures Enabled(now, next) <==> MayFollow(before, m, now, next)
  {
    if m.Wake? { WakesOnlyToStop(before); }
  }

  lemma {:induction false} PlaceStays(states: seq<System>, steps: seq<Step>, a: nat, b: nat, i: nat)
    requires IsRun(states, steps) && a <= b < |states| && i < |states[a].tasks|
    requires forall k :: a <= k < b ==> !IsManagers(steps[k], i)
    ensures i < |states[b].tasks| && states[b].tasks[i].place == states[a].tasks[i].place
    decreases b
  {
    if a < b {
      PlaceStays(states, steps, a, b - 1, i);
      assert Leads(states[b - 1], steps[b - 1], states[b]);
      assert !IsManagers(steps[b - 1], i);
    }
  }

  /** Over any run every manager makes exactly the moves of the loop it is spawned with, in that order. */
  lemma ManagerFollowsItsProgram(states: seq<System>, steps: seq<Step>, a: nat, b: nat, i: nat, next: Move)
    requires IsRun(states, steps) && a < b < |states| && IsManagers(steps[a], i) && !next.ChildEnds?
    requires forall k :: a < k < b ==> !IsManagers(steps[k], i)
    ensures i < |states[a].tasks| && i < |states[b].tasks|
    ensures CanStep(states[b], Manager(i, next)) <==>
              MayFollow(states[a].tasks[i], steps[a].move, states[b].tasks[i], next)
  {
    RunKeeps(states, steps, a);
    assert Leads(states[a], steps[a], states[a + 1]);
    assert Member(states[a], i);
    PlaceStays(states, steps, a + 1, b, i);
    MoveLeadsOn(states[a].tasks[i], steps[a].move, states[b].tasks[i], next);
  }

  /** A task registered anew has a manager that first looks whether it is to stop. */
  lemma ManagerBegins(states: seq<System>, steps: seq<Step>, a: nat, b: nat, next: Move)
    requires IsRun(states, steps) && a < b < |states| && steps[a].Register? && !next.ChildEnds?
    requires forall k :: a < k < b ==> !IsManagers(steps[k], |states[a].tasks|)
    ensures CanStep(states[b], Manager(|states[a].tasks|, next)) <==> next.Check?
    ensures var t := states[a + 1].tasks[|states[a].tasks|];
            t.state.NotStarted? && t.failures == 0 && t.children == [] && !t.asked && !t.expired && !t.senderGone
  {
    assert Leads(states[a], steps[a], states[a + 1]);
    PlaceStays(states, steps, a + 1, b, |states[a].tasks|);
  }

  /** Once shutdown has asked a task to stop, its manager finds itself signalled for as long as it has not
      taken that in, whatever it does meanwhile. */
  lemma {:induction false} AskedIsSignalled(states: seq<System>, steps: seq<Step>, a: nat, b: nat, i: nat)
    requires IsRun(states, steps) && a < b < |states| && i < |states[a].tasks|
    requires steps[a].Signal? && states[a].shutdown == Signalling(i)
    requires forall k :: a < k < b ==> steps[k] != Manager(i, Wake)
    ensures i < |states[b].tasks| && states[b].tasks[i].asked && states[b].tasks[i].unseen
    decreases b
  {
    assert Leads(states[b - 1], steps[b - 1], states[b]);
    if b > a + 1 {
      AskedIsSignalled(states, steps, a, b - 1, i);
      assert steps[b - 1] != Manager(i, Wake);
    }
  }

  /** A supervisor dropped without shutdown signals every manager for good. */
  lemma {:induction false} DroppingSignals(states: seq<System>, steps: seq<Step>, a: nat, b: nat, i: nat)
    requires IsRun(states, steps) && a < b < |states| && i < |states[a].tasks| && steps[a].DropSupervisor?
    ensures i < |states[b].tasks| && states[b].tasks[i].senderGone && states[b].shutdown.Abandoned?
    decreases b
  {
    assert Leads(states[b - 1], steps[b - 1], states[b]);
    if b > a + 1 { DroppingSignals(states, steps, a, b - 1, i); }
  }

  /** What a move does to the children, the count and the published state. */
  lemma MoveTells(t: Task, m: Move)
    requires Fits(t) && Enabled(t, m)
    ensures var u := Moved(t, m);
            && u.failures == t.failures + (if m.Report? then 1 else 0)
            && (if m.Start? then u.children == t.children + [Alive]
                else if m.ChildEnds? then u.children == t.children[..|t.children| - 1] + [Finished]
                else if (m.StopTimeout? || m.Cancel?) && LastChild(t).Alive? then
                  u.children == t.children[..|t.children| - 1] + [Aborted]
                else u.children == t.children)
            && u.state == (
                 if m.Check? && t.asked then Stopped
                 else if m.Publish? then if t.state.Stopping? then Stopped else Running
                 else if m.Wake? then if t.state.Running? then Stopping else Stopped
                 else if m.Notified? && t.failures < 3 then Restarting
                 else if m.Report? then u.state
                 else t.state)
            && (m.ChildResult? ==> u.place == Reporting(m.outcome))
            && (m.Report? && t.place.Reporting? ==> u.state == Failed(Child(t.place.outcome)))
  {
    if m.Wake? { WakesOnlyToStop(t); }
  }

  /** The failure that is published is how the child ended. */
  lemma FailureIsTheChilds(states: seq<System>, steps: seq<Step>, a: nat, b: nat, i: nat, outcome: Outcome)
    requires IsRun(states, steps) && a < b < |steps| && steps[a] == Manager(i, ChildResult(outcome))
    requires IsManagers(steps[b], i) && forall k :: a < k < b ==> !IsManagers(steps[k], i)
    ensures i < |states[b + 1].tasks| && states[b + 1].tasks[i].state == Failed(Child(outcome))
  {
    ManagerFollowsItsProgram(states, steps, a, b, i, steps[b].move);
    assert Leads(states[a], steps[a], states[a + 1]) && Leads(states[b], steps[b], states[b + 1]);
    PlaceStays(states, steps, a + 1, b, i);
    RunKeeps(states, steps, b);
    assert Member(states[b], i);
    MoveTells(states[b].tasks[i], steps[b].move);
  }

  // ------------------------------ shutdown comes to its end ------------------------------

  predicate IsShutdowns(step: Step) {
    step.Signal? || step.Joined? || step.Expire? || step.Reaped?
  }

  predicate Under(s: System) {
    s.shutdown.Signalling? || s.shutdown.Joining? || s.shutdown.Reaping?
  }

  /** How many steps shutdown can still take. */
  ghost function Left(s: System): int {
    match s.shutdown
    case Signalling(n) => 3 * |s.tasks| - n + 2
    case Joining(n) => 2 * (|s.tasks| - n) + 1
    case Reaping(n) => 2 * (|s.tasks| - n)
    case Over => 0
    case Never => 0
    case Abandoned => 0
  }

  lemma {:induction false} LeftIsPositive(states: seq<System>, steps: seq<Step>, k: nat)
    requires IsRun(states, steps) && k < |states|
    ensures Under(states[k]) ==> Left(states[k]) > 0 && states[k].shutdown.next <= |states[k].tasks|
    ensures states[k].shutdown.Reaping? ==> states[k].shutdown.next < |states[k].tasks|
  {
    if k > 0 {
      LeftIsPositive(states, steps, k - 1);
      assert Leads(states[k - 1], steps[k - 1], states[k]);
    }
  }

  /** Over any run shutdown takes at most so many steps: each of its own brings it closer to its end, and
      nothing else moves it. */
  lemma ShutdownAdvances(states: seq<System>, steps: seq<Step>, k: nat)
    requires IsRun(states, steps) && k < |steps| && Under(states[k])
    ensures Under(states[k + 1]) || states[k + 1].shutdown.Over?
    ensures if IsShutdowns(steps[k]) then 0 <= Left(states[k + 1]) < Left(states[k])
            else states[k + 1].shutdown == states[k].shutdown && Left(states[k + 1]) == Left(states[k])
  {
    LeftIsPositive(states, steps, k);
    LeftIsPositive(states, steps, k + 1);
    assert Leads(states[k], steps[k], states[k + 1]);
  }

  /** A manager that was told to abort can always go on: it can be cancelled where it waits, and nowhere else
      does it wait. */
  lemma AbortedGoesOn(t: Task) returns (m: Move)
    requires t.aborting && !Ended(t.place)
    ensures Enabled(t, m) && !m.ChildEnds?
  {
    match t.place
    case Top => m := Check;
    case Started => m := Publish;
    case Reporting(_) => m := Report;
    case Halted => m := Publish;
    case Leaving => m := Leave;
    case Starting => m := Cancel;
    case Watching => m := Cancel;
    case Notifying => m := Cancel;
    case Sleeping(_) => m := Cancel;
    case Halting => m := Cancel;
    case Draining => m := Cancel;
  }

  /** And it is never stuck: it has a step to take itself, or the manager it waits for, which it has told to
      abort, has one. */
  lemma ShutdownGoesOn(states: seq<System>, steps: seq<Step>, k: nat) returns (step: Step)
    requires IsRun(states, steps) && k < |states| && Under(states[k])
    ensures CanStep(states[k], step)
    ensures IsShutdowns(step) || (states[k].shutdown.Reaping? && IsManagers(step, states[k].shutdown.next))
  {
    var s := states[k];
    LeftIsPositive(states, steps, k);
    RunKeeps(states, steps, k);
    match s.shutdown
    case Signalling(_) => step := Signal;
    case Joining(n) => step := if n >= |s.tasks| || Ended(s.tasks[n].place) then Joined else Expire;
    case Reaping(n) =>
      assert Member(s, n);
      if Ended(s.tasks[n].place) {
        step := Reaped;
      } else {
        var m := AbortedGoesOn(s.tasks[n]);
        step := Manager(n, m);
      }
  }

  /** Some run ends in this state. */
  ghost predicate Reachable(s: System) {
    exists states, steps :: IsRun(states, steps) && states[|steps|] == s
  }

  lemma ReachNext(s: System, step: Step)
    requires Reachable(s) && CanStep(s, step)
    ensures Reachable(Stepped(s, step))
  {
    var states, steps :| IsRun(states, steps) && states[|steps|] == s;
    var longer, more := states + [Stepped(s, step)], steps + [step];
    forall i | 0 <= i < |more| ensures Leads(longer[i], more[i], longer[i + 1]) {
      if i < |steps| { assert Leads(states[i], steps[i], states[i + 1]); }
    }
    assert IsRun(longer, more) && longer[|more|] == Stepped(s, step);
  }

  ghost predicate Overwrites(s: System, step: Step) {
    && CanStep(s, step) && |s.tasks| == |Stepped(s, step).tasks| == 1
    && s.tasks[0].state.Stopped? && Stepped(s, step).tasks[0].state == Failed(SupervisorTimeout)
  }

  lemma StopCanBeAsked()
    ensures Reachable(System([Asked(REGISTERED)], Joining(0)))
  {
    assert IsRun([INITIAL], []) && [INITIAL][0] == INITIAL;
    ReachNext(INITIAL, Register);
    ReachNext(System([REGISTERED], Never), Call);
    ReachNext(System([REGISTERED], Signalling(0)), Signal);
    assert [REGISTERED][0 := Asked(REGISTERED)] == [Asked(REGISTERED)];
    ReachNext(System([Asked(REGISTERED)], Signalling(1)), Signal);
  }

  /** And that happens: a manager may have said `Stopped` and be about to return when the wait for
      it runs out, and then its state becomes a failure. */
  lemma StoppedIsNotAbsorbing()
    ensures exists s, step :: Reachable(s) && Overwrites(s, step)
  {
    StopCanBeAsked();
    var asked := Asked(REGISTERED);
    var leaving := asked.(state := Stopped, place := Leaving);
    var late := leaving.(aborting := true, expired := true);
    ReachNext(System([asked], Joining(0)), Manager(0, Check));
    assert [asked][0 := leaving] == [leaving];
    ReachNext(System([leaving], Joining(0)), Expire);
    assert [leaving][0 := late] == [late];
    ReachNext(System([late], Reaping(0)), Manager(0, Leave));
    var gone := late.(place := Returned);
    assert [late][0 := gone] == [gone];
    assert Overwrites(System([gone], Reaping(0)), Reaped);
  }
}
