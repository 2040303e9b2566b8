/** The whole retry queue: many keys, one lock and one supply of tokens. Every run of it is, seen from
    any one key, a run of that key's protocol. */
module RetryKeys {
  import opened Wrappers
  import opened Backoff
  import opened RetryProtocol

  /** A loop and the key it was spawned for. */
  datatype Spawned = Spawned(key: string, loop: Loop)

  /** A clear that holds the lock: the keys it has yet to remove, and the loop it has removed from the
      map but not yet cancelled. */
  datatype Clearing = Clearing(rest: set<string>, draining: Option<Token>)

  datatype Queue = Queue(
    keys: Keys,
    loops: map<Token, Spawned>,
    nextToken: Token,
    clearing: Option<Clearing>,
    episodes: map<string, seq<Episode>>)

  /** `clear` locks for one key, `clear_all` for every key of the map. */
  datatype Move =
    | On(key: string, step: Step)
    | Lock(keys: set<string>)
    | Remove(key: string)
    | Cancel
    | Unlock

  const EMPTY := Queue(map[], map[], 0, None, map[])

  // ------------------------------ one key's view ------------------------------

  ghost function LoopsOf(q: Queue, key: string): map<Token, Loop> {
    map t | t in q.loops && q.loops[t].key == key :: q.loops[t].loop
  }

  ghost function Draining(q: Queue): Option<Token> {
    if q.clearing.Some? then q.clearing.value.draining else None
  }

  ghost predicate Drains(q: Queue, key: string) {
    Draining(q).Some? && Draining(q).value in q.loops && q.loops[Draining(q).value].key == key
  }

  ghost function Of(q: Queue, key: string): State {
    State(At(q.keys, key), LoopsOf(q, key), q.nextToken, if Drains(q, key) then Draining(q) else None,
          if key in q.episodes then q.episodes[key] else [])
  }

  /** The queue with one key's part replaced. */
  ghost function Put(q: Queue, key: string, s: State): Queue {
    q.(keys := With(q.keys, key, s.entry),
       loops := q.loops + map t | t in s.loops :: Spawned(key, s.loops[t]),
       nextToken := s.nextToken,
       episodes := q.episodes[key := s.episodes])
  }

  // ------------------------------ moves ------------------------------

  /** Steps that hold the lock. */
  ghost predicate Locks(step: Step) {
    step.Schedule? || step.Retry? || step.Finish?
  }

  ghost predicate Allowed(q: Queue, m: Move) {
    match m
    case On(key, step) =>
      && step != Clear && step != StoreCancel && step != Elsewhere
      && (Locks(step) ==> q.clearing.None?)
      && Shape(Of(q, key)) && Enabled(Of(q, key), step)
    case Lock(_) => q.clearing.None?
    case Remove(key) => q.clearing.Some? && q.clearing.value.draining.None? && key in q.clearing.value.rest
    case Cancel => q.clearing.Some? && q.clearing.value.draining.Some? && q.clearing.value.draining.value in q.loops
    case Unlock => q.clearing == Some(Clearing({}, None))
  }

  ghost function Moved(q: Queue, m: Move): Queue
    requires Allowed(q, m)
  {
    match m
    case On(key, step) => Put(q, key, Apply(Of(q, key), step))
    case Lock(keys) => q.(clearing := Some(Clearing(keys, None)))
    case Remove(key) =>
      q.(keys := With(q.keys, key, None),
         clearing := Some(Clearing(q.clearing.value.rest - {key}, Running(At(q.keys, key)))))
    case Cancel =>
      var t := q.clearing.value.draining.value;
      q.(loops := q.loops[t := q.loops[t].(loop := q.loops[t].loop.(cancelled := true))],
         clearing := Some(q.clearing.value.(draining := None)))
    case Unlock => q.(clearing := None)
  }

  /** What one key sees of a move: a step of its own, a token taken elsewhere, or nothing. */
  ghost function Seen(q: Queue, m: Move, key: string): Option<Step>
    requires Allowed(q, m)
  {
    match m
    case On(k, step) =>
      if k == key then Some(step)
      else if Moved(q, m).nextToken != q.nextToken then Some(Elsewhere)
      else None
    case Lock(_) => None
    case Remove(k) => if k == key then Some(Clear) else None
    case Cancel => if Drains(q, key) then Some(StoreCancel) else None
    case Unlock => None
  }

  // ------------------------------ a move is a step ------------------------------

  /** Every token handed out belongs to one loop, and what is to be cancelled exists. */
  ghost predicate Valid(q: Queue) {
    && (forall t: Token :: t in q.loops <==> t < q.nextToken)
    && (Draining(q).Some? ==> Draining(q).value in q.loops)
    && forall key :: Shape(Of(q, key))
  }

  /** The step of one key adds no loop but its new one. */
  ghost predicate Extends(s: State, s': State) {
    && s.loops.Keys <= s'.loops.Keys
    && (forall t :: t in s'.loops ==> t in s.loops || t == s.nextToken < s'.nextToken)
    && (s'.nextToken == s.nextToken || (s'.nextToken == s.nextToken + 1 && s.nextToken in s'.loops))
  }

  lemma StepExtends(s: State, step: Step)
    requires Shape(s) && Enabled(s, step) && step != Elsewhere
    ensures Extends(s, Apply(s, step))
  {
  }

  lemma LockFreeKeepsDraining(s: State, step: Step)
    requires Shape(s) && Enabled(s, step) && step != Clear && step != StoreCancel
    ensures Apply(s, step).draining == s.draining
  {
  }

  lemma PutIsSeen(q: Queue, key: string, s: State)
    requires Valid(q) && Extends(Of(q, key), s) && s.draining == Of(q, key).draining
    ensures Of(Put(q, key, s), key) == s
  {
    var q' := Put(q, key, s);
    assert LoopsOf(q', key) == s.loops;
  }

  lemma OtherLoops(q: Queue, key: string, s: State, other: string)
    requires (forall t: Token :: t in q.loops <==> t < q.nextToken)
    requires Extends(Of(q, key), s) && other != key
    ensures LoopsOf(Put(q, key, s), other) == LoopsOf(q, other)
  {
    var q' := Put(q, key, s);
    forall t: Token ensures t in LoopsOf(q', other) <==> t in LoopsOf(q, other) {
      assert t in s.loops ==> q'.loops[t].key == key;
    }
  }

  lemma PutIsUnseen(q: Queue, key: string, s: State, other: string)
    requires Valid(q) && Extends(Of(q, key), s) && other != key
    ensures Of(Put(q, key, s), other) == Of(q, other).(nextToken := s.nextToken)
  {
    var q' := Put(q, key, s);
    OtherLoops(q, key, s, other);
    DrainsAlike(q, q', key, s, other);
  }

  lemma DrainsAlike(q: Queue, q': Queue, key: string, s: State, other: string)
    requires Valid(q) && Extends(Of(q, key), s) && other != key && q' == Put(q, key, s)
    ensures Drains(q', other) == Drains(q, other)
  {
    if Draining(q).Some? {
      var t := Draining(q).value;
      assert t in q.loops && t < q.nextToken;
      assert t in s.loops ==> t in LoopsOf(q, key);
    }
  }

  lemma OnIsStep(q: Queue, key: string, step: Step, other: string)
    requires Valid(q) && Allowed(q, On(key, step))
    ensures SeenRight(q, On(key, step), other)
  {
    var s := Of(q, key);
    var s' := Apply(s, step);
    StepExtends(s, step);
    LockFreeKeepsDraining(s, step);
    if other == key {
      PutIsSeen(q, key, s');
    } else {
      PutIsUnseen(q, key, s', other);
      if s'.nextToken != s.nextToken { TokensNeedTheLock(q, key, step); }
    }
  }

  lemma TokensNeedTheLock(q: Queue, key: string, step: Step)
    requires Valid(q) && Allowed(q, On(key, step)) && Moved(q, On(key, step)).nextToken != q.nextToken
    ensures q.clearing.None? && Moved(q, On(key, step)).nextToken == q.nextToken + 1
  {
  }

  /** What the key sees of the move is what its protocol does. */
  ghost predicate SeenRight(q: Queue, m: Move, key: string)
    requires Allowed(q, m)
  {
    var s, s' := Of(q, key), Of(Moved(q, m), key);
    match Seen(q, m, key)
    case None => s' == s
    case Some(step) => Shape(s) && Enabled(s, step) && s' == Apply(s, step)
  }

  lemma RemoveIsStep(q: Queue, key: string, other: string)
    requires Valid(q) && Allowed(q, Remove(key))
    ensures SeenRight(q, Remove(key), other)
  {
    var q' := Moved(q, Remove(key));
    assert Shape(Of(q, key)) && Shape(Of(q, other));
    assert LoopsOf(q', other) == LoopsOf(q, other);
    if Running(At(q.keys, key)).Some? {
      assert Running(At(q.keys, key)).value in LoopsOf(q, key);
    }
  }

  lemma CancelIsStep(q: Queue, other: string)
    requires Valid(q) && Allowed(q, Cancel)
    ensures SeenRight(q, Cancel, other)
  {
    var q' := Moved(q, Cancel);
    var t := Draining(q).value;
    assert Shape(Of(q, other));
    if Drains(q, other) {
      assert LoopsOf(q', other) == LoopsOf(q, other)[t := LoopsOf(q, other)[t].(cancelled := true)];
    } else {
      assert LoopsOf(q', other) == LoopsOf(q, other);
    }
  }

  /** Every move of the queue is, for every key, a step of the key's protocol or nothing. */
  lemma MoveIsStep(q: Queue, m: Move, key: string)
    requires Valid(q) && Allowed(q, m)
    ensures SeenRight(q, m, key)
  {
    match m
    case On(k, step) => OnIsStep(q, k, step, key);
    case Lock(_) =>
    case Remove(k) => RemoveIsStep(q, k, key);
    case Cancel => CancelIsStep(q, key);
    case Unlock =>
  }

  // ------------------------------ whole runs ------------------------------

  ghost predicate Tokens(q: Queue) {
    && (forall t: Token :: t in q.loops <==> t < q.nextToken)
    && (Draining(q).Some? ==> Draining(q).value in q.loops)
  }

  ghost predicate Sound(q: Queue) {
    Tokens(q) && forall key :: Inv(Of(q, key))
  }

  lemma MoveKeepsTokens(q: Queue, m: Move)
    requires Valid(q) && Allowed(q, m)
    ensures Tokens(Moved(q, m))
  {
    match m
    case On(key, step) => StepExtends(Of(q, key), step);
    case Remove(key) => assert Shape(Of(q, key));
    case _ =>
  }

  lemma SoundIsValid(q: Queue)
    requires Sound(q)
    ensures Valid(q)
  {
    forall key ensures Shape(Of(q, key)) {
      assert Inv(Of(q, key));
    }
  }

  /** Each move of the queue keeps every key's invariant at once. */
  lemma MoveKeeps(q: Queue, m: Move)
    requires Sound(q) && Allowed(q, m)
    ensures Sound(Moved(q, m))
  {
    SoundIsValid(q);
    MoveKeepsTokens(q, m);
    forall key ensures Inv(Of(Moved(q, m), key)) {
      MoveIsStep(q, m, key);
      var step := Seen(q, m, key);
      if step.Some? { StepKeeps(Of(q, key), step.value); }
    }
  }

  ghost predicate IsQueueRun(trace: seq<Queue>, moves: seq<Move>) {
    && |trace| == |moves| + 1 && trace[0] == EMPTY
    && forall i :: 0 <= i < |moves| ==> Allowed(trace[i], moves[i]) && trace[i + 1] == Moved(trace[i], moves[i])
  }

  lemma EmptyIsInit(key: string)
    ensures Of(EMPTY, key) == INIT && Inv(INIT)
  {
    assert LoopsOf(EMPTY, key) == map[];
  }

  lemma {:induction false} QueueRunKeeps(trace: seq<Queue>, moves: seq<Move>, i: nat)
    requires IsQueueRun(trace, moves) && i < |trace|
    ensures Sound(trace[i])
  {
    if i > 0 {
      QueueRunKeeps(trace, moves, i - 1);
      MoveKeeps(trace[i - 1], moves[i - 1]);
    } else {
      forall key ensures Inv(Of(EMPTY, key)) {
        EmptyIsInit(key);
      }
    }
  }

  /** The key's own steps among the first `i` moves. */
  ghost function StepsOf(trace: seq<Queue>, moves: seq<Move>, key: string, i: nat): seq<Step>
    requires IsQueueRun(trace, moves) && i < |trace|
  {
    if i == 0 then []
    else
      var step := Seen(trace[i - 1], moves[i - 1], key);
      StepsOf(trace, moves, key, i - 1) + if step.Some? then [step.value] else []
  }

  /** What the key's part of the queue was after each of them. */
  ghost function StatesOf(trace: seq<Queue>, moves: seq<Move>, key: string, i: nat): seq<State>
    requires IsQueueRun(trace, moves) && i < |trace|
  {
    if i == 0 then [INIT]
    else
      var step := Seen(trace[i - 1], moves[i - 1], key);
      StatesOf(trace, moves, key, i - 1) + if step.Some? then [Of(trace[i], key)] else []
  }

  /** Every run of the queue is, seen from any key, a run of the key's protocol. */
  lemma {:induction false} RunProjects(trace: seq<Queue>, moves: seq<Move>, key: string, i: nat)
    requires IsQueueRun(trace, moves) && i < |trace|
    ensures var states, steps := StatesOf(trace, moves, key, i), StepsOf(trace, moves, key, i);
            IsRun(states, steps) && states[|steps|] == Of(trace[i], key)
  {
    if i == 0 {
      EmptyIsInit(key);
    } else {
      var states, steps := StatesOf(trace, moves, key, i - 1), StepsOf(trace, moves, key, i - 1);
      RunProjects(trace, moves, key, i - 1);
      QueueRunKeeps(trace, moves, i - 1);
      SoundIsValid(trace[i - 1]);
      MoveIsStep(trace[i - 1], moves[i - 1], key);
      var step := Seen(trace[i - 1], moves[i - 1], key);
      if step.Some? {
        RunExtends(states, steps, Stepping(), step.value, Of(trace[i], key));
      } else {
        assert steps + [] == steps && states + [] == states;
      }
    }
  }

  /** While no clear is under way, the loops that are unfinished and uncancelled are exactly those the
      map names, one for each busy key and none for two keys. */
  lemma LiveLoopsAreTheRunningOnes(trace: seq<Queue>, moves: seq<Move>, i: nat, key: string, t: Token)
    requires IsQueueRun(trace, moves) && i < |trace| && trace[i].clearing.None?
    ensures var q := trace[i];
            && (Running(At(q.keys, key)) == Some(t) <==>
                  t in q.loops && q.loops[t].key == key && q.loops[t].loop.pc != Done && !q.loops[t].loop.cancelled)
            && forall other :: Running(At(q.keys, key)) == Some(t) == Running(At(q.keys, other)) ==> other == key
  {
    QueueRunKeeps(trace, moves, i);
    var states, steps := StatesOf(trace, moves, key, i), StepsOf(trace, moves, key, i);
    RunProjects(trace, moves, key, i);
    OneLiveLoop(states, steps, |steps|);
    assert Live(Of(trace[i], key), t) <==> Running(At(trace[i].keys, key)) == Some(t);
    forall other | Running(At(trace[i].keys, key)) == Some(t) == Running(At(trace[i].keys, other))
      ensures other == key
    {
      RunningIsOwn(trace[i], key);
      RunningIsOwn(trace[i], other);
    }
  }

  lemma RunningIsOwn(q: Queue, key: string)
    requires Sound(q) && Running(At(q.keys, key)).Some?
    ensures var t := Running(At(q.keys, key)).value; t in q.loops && q.loops[t].key == key
  {
    assert Inv(Of(q, key));
    assert Running(At(q.keys, key)).value in LoopsOf(q, key);
  }

  /** A longer run of the queue is, for the key, a longer run. */
  lemma {:induction false} ProjectionGrows(trace: seq<Queue>, moves: seq<Move>, key: string, i: nat, j: nat)
    requires IsQueueRun(trace, moves) && i <= j < |trace|
    ensures StatesOf(trace, moves, key, i) <= StatesOf(trace, moves, key, j)
    ensures StepsOf(trace, moves, key, i) <= StepsOf(trace, moves, key, j)
    decreases j
  {
    if i < j { ProjectionGrows(trace, moves, key, i, j - 1); }
  }

  /** Where the key's own move stands among its steps. */
  lemma OwnMoveIsStep(trace: seq<Queue>, moves: seq<Move>, key: string, i: nat, j: nat)
    requires IsQueueRun(trace, moves) && i < j < |trace| && moves[i].On? && moves[i].key == key
    ensures var (a, steps) := (|StepsOf(trace, moves, key, i)|, StepsOf(trace, moves, key, j));
            a < |steps| && steps[a] == moves[i].step && |StepsOf(trace, moves, key, i + 1)| == a + 1
  {
    ProjectionGrows(trace, moves, key, i + 1, j);
    assert StepsOf(trace, moves, key, i + 1)[|StepsOf(trace, moves, key, i)|] == moves[i].step;
  }

  lemma StopSeenFromItsKey(trace: seq<Queue>, moves: seq<Move>, i: nat, j: nat, key: string, t: Token)
    requires IsQueueRun(trace, moves) && i < j < |trace| && moves[i] == On(key, EndAction(t, false))
    ensures var (a, steps) := (|StepsOf(trace, moves, key, i)|, StepsOf(trace, moves, key, j));
            && t in LoopsOf(trace[i + 1], key) && t in LoopsOf(trace[j], key)
            && trace[j].loops[t].loop.runs == trace[i + 1].loops[t].loop.runs
            && (forall b :: a <= b < |steps| ==> steps[b] != Step.Retry(t) && steps[b] != StartAction(t))
            && (Finishes(steps, a, |steps|, t) ==> Running(At(trace[j].keys, key)) != Some(t))
  {
    var states, steps := StatesOf(trace, moves, key, j), StepsOf(trace, moves, key, j);
    var a := |StepsOf(trace, moves, key, i)|;
    RunProjects(trace, moves, key, i + 1);
    RunProjects(trace, moves, key, j);
    ProjectionGrows(trace, moves, key, i + 1, j);
    OwnMoveIsStep(trace, moves, key, i, j);
    RetryProtocol.StopEndsTheLoop(states, steps, a, |steps|, t);
    assert states[a + 1] == Of(trace[i + 1], key) && states[|steps|] == Of(trace[j], key);
  }

  /** An action that says stop ends its loop, whatever the other keys do: no run and no retry follows, and
      once the loop has finished the map names it under no key. */
  lemma StopEndsTheLoop(trace: seq<Queue>, moves: seq<Move>, i: nat, j: nat, key: string, t: Token)
    requires IsQueueRun(trace, moves) && i < j < |trace| && moves[i] == On(key, EndAction(t, false))
    ensures t in trace[i + 1].loops && t in trace[j].loops
    ensures trace[j].loops[t].loop.runs == trace[i + 1].loops[t].loop.runs
    ensures forall k :: i <= k < j ==> moves[k] != On(key, Step.Retry(t)) && moves[k] != On(key, StartAction(t))
    ensures forall k :: i <= k < j && moves[k] == On(key, Step.Finish(t)) ==>
                          forall other :: Running(At(trace[j].keys, other)) != Some(t)
  {
    StopSeenFromItsKey(trace, moves, i, j, key, t);
    forall k | i <= k < j && moves[k].On? && moves[k].key == key
      ensures moves[k].step != Step.Retry(t) && moves[k].step != StartAction(t)
      ensures moves[k].step == Step.Finish(t) ==> forall other :: Running(At(trace[j].keys, other)) != Some(t)
    {
      OwnMoveIsStep(trace, moves, key, k, j);
      ProjectionGrows(trace, moves, key, i, k);
      if moves[k].step == Step.Finish(t) {
        assert Finishes(StepsOf(trace, moves, key, j), |StepsOf(trace, moves, key, i)|,
                        |StepsOf(trace, moves, key, j)|, t);
        NamedUnderItsKey(trace, moves, j, key, t);
      }
    }
  }

  lemma NamedUnderItsKey(trace: seq<Queue>, moves: seq<Move>, j: nat, key: string, t: Token)
    requires IsQueueRun(trace, moves) && j < |trace| && t in LoopsOf(trace[j], key)
    requires Running(At(trace[j].keys, key)) != Some(t)
    ensures forall other :: Running(At(trace[j].keys, other)) != Some(t)
  {
    QueueRunKeeps(trace, moves, j);
    forall other ensures Running(At(trace[j].keys, other)) != Some(t) {
      if Running(At(trace[j].keys, other)) == Some(t) { RunningIsOwn(trace[j], other); }
    }
  }

  // ------------------------------ clearing ------------------------------

  /** The loops of the keys removed so far. */
  ghost predicate Removed(before: Queue, removed: set<string>, t: Token) {
    exists key :: key in removed && Running(At(before.keys, key)) == Some(t)
  }

  /** How far a clear that locked in `before` has come: the keys removed have no entry, the others the
      one they had, and the flags raised are those of the loops removed and no longer draining. */
  ghost predicate Clears(before: Queue, keys: set<string>, q: Queue) {
    && q.clearing.Some? && q.loops.Keys == before.loops.Keys && q.nextToken == before.nextToken
    && var removed := keys - q.clearing.value.rest;
       && (forall key :: At(q.keys, key) == if key in removed then None else At(before.keys, key))
       && (Draining(q).Some? ==> Removed(before, removed, Draining(q).value))
       && forall t :: t in q.loops ==>
            (q.loops[t].loop.cancelled <==>
               before.loops[t].loop.cancelled || (Removed(before, removed, t) && Draining(q) != Some(t)))
  }

  lemma LockClears(q: Queue, keys: set<string>)
    requires q.clearing.None?
    ensures Clears(q, keys, Moved(q, Lock(keys)))
  {
    var q' := Moved(q, Lock(keys));
    assert keys - q'.clearing.value.rest == {};
  }

  /** A step that does not hold the lock leaves map, tokens and flags alone. */
  lemma QuietStep(s: State, step: Step)
    requires Shape(s) && Enabled(s, step) && !Locks(step) && step != Clear && step != StoreCancel && step != Elsewhere
    ensures var s' := Apply(s, step);
            && s'.entry == s.entry && s'.nextToken == s.nextToken && s'.loops.Keys == s.loops.Keys
            && forall t :: t in s.loops ==> s'.loops[t].cancelled == s.loops[t].cancelled
  {
  }

  lemma QuietMove(q: Queue, key: string, step: Step)
    requires Valid(q) && Allowed(q, On(key, step)) && !Locks(step)
    ensures var q' := Moved(q, On(key, step));
            && q'.clearing == q.clearing && q'.nextToken == q.nextToken && q'.loops.Keys == q.loops.Keys
            && (forall k :: At(q'.keys, k) == At(q.keys, k))
            && forall t :: t in q.loops ==> q'.loops[t].loop.cancelled == q.loops[t].loop.cancelled
  {
    var s := Of(q, key);
    QuietStep(s, step);
    assert s.loops.Keys <= q.loops.Keys;
  }

  lemma ClearingQuiet(before: Queue, keys: set<string>, q: Queue, key: string, step: Step)
    requires Valid(q) && Clears(before, keys, q) && Allowed(q, On(key, step))
    ensures Clears(before, keys, Moved(q, On(key, step)))
  {
    QuietMove(q, key, step);
  }

  lemma RunningIsOne(q: Queue, a: string, b: string)
    requires Sound(q) && Running(At(q.keys, a)).Some? && Running(At(q.keys, a)) == Running(At(q.keys, b))
    ensures a == b
  {
    RunningIsOwn(q, a);
    RunningIsOwn(q, b);
  }

  lemma RemovedGrows(before: Queue, removed: set<string>, key: string, t: Token)
    ensures Removed(before, removed + {key}, t) <==>
              Removed(before, removed, t) || Running(At(before.keys, key)) == Some(t)
  {
    if Running(At(before.keys, key)) == Some(t) {
      assert key in removed + {key};
    }
    if Removed(before, removed, t) {
      var k :| k in removed && Running(At(before.keys, k)) == Some(t);
      assert k in removed + {key};
    }
  }

  lemma ClearingRemove(before: Queue, keys: set<string>, q: Queue, key: string)
    requires Sound(before) && Clears(before, keys, q) && Allowed(q, Remove(key)) && key in keys
    ensures Clears(before, keys, Moved(q, Remove(key)))
  {
    var q' := Moved(q, Remove(key));
    var removed := keys - q.clearing.value.rest;
    assert keys - q'.clearing.value.rest == removed + {key};
    assert Running(At(q.keys, key)) == Running(At(before.keys, key));
    forall t | t in q.loops
      ensures q'.loops[t].loop.cancelled <==> before.loops[t].loop.cancelled
                                              || (Removed(before, removed + {key}, t) && Draining(q') != Some(t))
    {
      RemovedGrows(before, removed, key, t);
      if Removed(before, removed, t) && Draining(q') == Some(t) {
        var k :| k in removed && Running(At(before.keys, k)) == Some(t);
        RunningIsOne(before, k, key);
      }
    }
    if Draining(q').Some? { RemovedGrows(before, removed, key, Draining(q').value); }
  }

  lemma ClearingCancel(before: Queue, keys: set<string>, q: Queue)
    requires Clears(before, keys, q) && Allowed(q, Cancel)
    ensures Clears(before, keys, Moved(q, Cancel))
  {
  }

  /** Every move between a clear's lock and its unlock takes it further, whatever other loops do. */
  lemma ClearingMove(before: Queue, keys: set<string>, q: Queue, m: Move)
    requires Sound(before) && Valid(q) && Clears(before, keys, q) && q.clearing.value.rest <= keys
    requires Allowed(q, m) && m != Unlock
    ensures Clears(before, keys, Moved(q, m)) && Moved(q, m).clearing.value.rest <= keys
  {
    match m
    case On(key, step) => ClearingQuiet(before, keys, q, key, step); QuietMove(q, key, step);
    case Remove(key) => ClearingRemove(before, keys, q, key);
    case Cancel => ClearingCancel(before, keys, q);
    case Lock(_) => assert false;
  }

  lemma {:induction false} ClearingGoesOn(trace: seq<Queue>, moves: seq<Move>, i: nat, j: nat)
    requires IsQueueRun(trace, moves) && i < j < |trace| && moves[i].Lock?
    requires forall k :: i < k < j ==> moves[k] != Unlock
    ensures Clears(trace[i], moves[i].keys, trace[j]) && trace[j].clearing.value.rest <= moves[i].keys
  {
    if j == i + 1 {
      LockClears(trace[i], moves[i].keys);
    } else {
      ClearingGoesOn(trace, moves, i, j - 1);
      QueueRunKeeps(trace, moves, i);
      QueueRunKeeps(trace, moves, j - 1);
      SoundIsValid(trace[j - 1]);
      ClearingMove(trace[i], moves[i].keys, trace[j - 1], moves[j - 1]);
    }
  }

  /** A clear that locked for some keys and has unlocked: those keys are gone and no others, and it has
      raised the flags of exactly the loops their entries named, whatever loops did meanwhile. */
  lemma {:induction false} ClearIsExact(trace: seq<Queue>, moves: seq<Move>, i: nat, j: nat)
    requires IsQueueRun(trace, moves) && i < j < |moves| && moves[i].Lock? && moves[j] == Unlock
    requires forall k :: i < k < j ==> moves[k] != Unlock
    ensures var before, after := trace[i], trace[j + 1];
            && (forall key :: At(after.keys, key) == if key in moves[i].keys then None else At(before.keys, key))
            && after.loops.Keys == before.loops.Keys && after.nextToken == before.nextToken
            && forall t :: t in after.loops ==>
                 (after.loops[t].loop.cancelled <==>
                    before.loops[t].loop.cancelled || Removed(before, moves[i].keys, t))
  {
    ClearingGoesOn(trace, moves, i, j);
    assert moves[i].keys - trace[j].clearing.value.rest == moves[i].keys;
  }

  /** A clear is never stuck and comes to its end: it can cancel the loop it has removed, else remove any key it
      has left, else unlock; and each step leaves it less to do. */
  lemma ClearGoesOn(trace: seq<Queue>, moves: seq<Move>, i: nat, key: string)
    requires IsQueueRun(trace, moves) && i < |trace| && trace[i].clearing.Some?
    ensures var (q, c) := (trace[i], trace[i].clearing.value);
            && (Allowed(q, Cancel) <==> c.draining.Some?)
            && (Allowed(q, Remove(key)) <==> c.draining.None? && key in c.rest)
            && (Allowed(q, Unlock) <==> c.draining.None? && c.rest == {})
            && (Allowed(q, Cancel) ==> Moved(q, Cancel).clearing == Some(Clearing(c.rest, None)))
            && (Allowed(q, Remove(key)) ==>
                  Moved(q, Remove(key)).clearing.Some? && Moved(q, Remove(key)).clearing.value.rest == c.rest - {key})
            && (Allowed(q, Unlock) ==> Moved(q, Unlock).clearing.None?)
    ensures forall keys :: !Allowed(trace[i], Lock(keys))
  {
    QueueRunKeeps(trace, moves, i);
  }

  /** A lock is to be had whenever no clear holds it. */
  lemma LockIsFree(q: Queue, keys: set<string>)
    requires q.clearing.None?
    ensures Allowed(q, Lock(keys)) && Moved(q, Lock(keys)).clearing == Some(Clearing(keys, None))
  {
  }

  /** When `clear_all` is done nothing is left under any key, and no loop is live. */
  lemma {:induction false} ClearAllStopsEverything(trace: seq<Queue>, moves: seq<Move>, i: nat, j: nat)
    requires IsQueueRun(trace, moves) && i < j < |moves| && moves[i] == Lock(trace[i].keys.Keys) && moves[j] == Unlock
    requires forall k :: i < k < j ==> moves[k] != Unlock
    ensures var after := trace[j + 1];
            && after.keys == map[]
            && forall t :: t in after.loops ==> after.loops[t].loop.pc == Done || after.loops[t].loop.cancelled
  {
    var after := trace[j + 1];
    ClearIsExact(trace, moves, i, j);
    forall key ensures key !in after.keys {
      assert At(after.keys, key).None?;
    }
    forall t | t in after.loops ensures after.loops[t].loop.pc == Done || after.loops[t].loop.cancelled {
      LiveLoopsAreTheRunningOnes(trace, moves, j + 1, after.loops[t].key, t);
    }
  }

  // ------------------------------ the queue as an object ------------------------------

  /** A `RetryQueue` with these fields stands for this queue. */
  ghost predicate StandsFor(keys: Keys, flags: seq<bool>, q: Queue) {
    && q.keys == keys && q.nextToken == |flags|
    && forall t: Token :: t < |flags| ==> t in q.loops && q.loops[t].loop.cancelled == flags[t]
  }

  /** The flags of one key's loops. */
  ghost predicate Flagged(s: State, flags: seq<bool>) {
    s.nextToken == |flags| && forall t :: t in s.loops ==> t < |flags| && s.loops[t].cancelled == flags[t]
  }

  lemma OwnFlags(q: Queue, flags: seq<bool>, key: string)
    requires Tokens(q) && StandsFor(q.keys, flags, q)
    ensures Flagged(Of(q, key), flags)
  {
  }

  lemma PutStandsFor(q: Queue, flags: seq<bool>, key: string, s: State, flags': seq<bool>)
    requires StandsFor(q.keys, flags, q) && flags <= flags' && Flagged(s, flags')
    requires forall t: Token :: |flags| <= t < |flags'| ==> t in s.loops
    ensures StandsFor(With(q.keys, key, s.entry), flags', Put(q, key, s))
  {
    var q' := Put(q, key, s);
    forall t: Token | t < |flags'| ensures t in q'.loops && q'.loops[t].loop.cancelled == flags'[t] {
      if t !in s.loops { assert flags[t] == flags'[t]; }
    }
  }

  lemma MovesAre(q: Queue, key: string, step: Step)
    requires Sound(q) && q.clearing.None? && Enabled(Of(q, key), step)
    requires step != Clear && step != StoreCancel && step != Elsewhere
    ensures Allowed(q, On(key, step)) && Shape(Of(q, key))
    ensures Moved(q, On(key, step)) == Put(q, key, Apply(Of(q, key), step))
  {
    SoundIsValid(q);
  }

  ghost function FlagsAfter(noted: Noted, flags: seq<bool>): seq<bool> {
    if noted.next.Some? then flags + [false] else flags
  }

  lemma ScheduleFlags(s: State, budget: u32, flags: seq<bool>)
    requires Shape(s) && s.draining.None? && Flagged(s, flags)
    ensures var s', noted := DoSchedule(s, budget), Scheduled(s.entry, budget, s.nextToken);
            && s'.entry == noted.entry && Flagged(s', FlagsAfter(noted, flags))
            && (noted.next.Some? ==>
                  |flags| in s'.loops && s'.loops[|flags|].attempt == noted.next.value
                  && s'.loops[|flags|].budget == budget && s'.loops[|flags|].pc == Sleeping)
  {
  }

  /** `RetryQueue.Schedule` is the move of its key, and what it returns is the loop spawned. */
  lemma ScheduleIsMove(q: Queue, flags: seq<bool>, key: string, budget: u32)
    requires Sound(q) && StandsFor(q.keys, flags, q) && q.clearing.None?
    ensures var m, noted := On(key, Schedule(budget)), Scheduled(At(q.keys, key), budget, |flags|);
            && Allowed(q, m) && StandsFor(With(q.keys, key, noted.entry), FlagsAfter(noted, flags), Moved(q, m))
            && (noted.next.Some? ==>
                  var spawned := Moved(q, m).loops[|flags|];
                  && spawned.key == key && spawned.loop.attempt == noted.next.value
                  && spawned.loop.budget == budget && spawned.loop.pc == Sleeping)
  {
    var s := Of(q, key);
    OwnFlags(q, flags, key);
    MovesAre(q, key, Schedule(budget));
    ScheduleFlags(s, budget, flags);
    var noted := Scheduled(s.entry, budget, s.nextToken);
    PutStandsFor(q, flags, key, DoSchedule(s, budget), FlagsAfter(noted, flags));
  }

  lemma RetryFlags(s: State, t: Token, flags: seq<bool>)
    requires Shape(s) && IsAt(s, t, Retrying) && Flagged(s, flags)
    ensures var s', noted := DoRetry(s, t), NoteRetry(s.entry, s.loops[t].budget, t);
            && s'.entry == noted.entry && Flagged(s', flags)
            && s'.loops[t].pc == (if noted.next.Some? then Sleeping else Finishing)
            && (noted.next.Some? ==> s'.loops[t].attempt == noted.next.value)
  {
  }

  /** `RetryQueue.Retry` is the move of a loop's key. */
  lemma RetryIsMove(q: Queue, flags: seq<bool>, key: string, t: Token)
    requires Sound(q) && StandsFor(q.keys, flags, q) && q.clearing.None? && IsAt(Of(q, key), t, Retrying)
    ensures var m, loop := On(key, Step.Retry(t)), Of(q, key).loops[t];
            var noted := NoteRetry(At(q.keys, key), loop.budget, t);
            && Allowed(q, m) && StandsFor(With(q.keys, key, noted.entry), flags, Moved(q, m))
            && Moved(q, m).loops[t].loop.pc == (if noted.next.Some? then Sleeping else Finishing)
            && (noted.next.Some? ==> Moved(q, m).loops[t].loop.attempt == noted.next.value)
  {
    var s := Of(q, key);
    OwnFlags(q, flags, key);
    MovesAre(q, key, Step.Retry(t));
    RetryFlags(s, t, flags);
    PutStandsFor(q, flags, key, DoRetry(s, t), flags);
  }

  lemma FinishFlags(s: State, t: Token, flags: seq<bool>)
    requires Shape(s) && IsAt(s, t, Finishing) && s.draining.None? && Flagged(s, flags)
    ensures var s' := Apply(s, Step.Finish(t));
            s'.entry == Finished(s.entry, t) && Flagged(s', flags) && s'.loops[t].pc == Done
  {
  }

  /** `RetryQueue.Finish` is the move of a loop's key. */
  lemma FinishIsMove(q: Queue, flags: seq<bool>, key: string, t: Token)
    requires Sound(q) && StandsFor(q.keys, flags, q) && q.clearing.None? && IsAt(Of(q, key), t, Finishing)
    ensures var m := On(key, Step.Finish(t));
            && Allowed(q, m) && Moved(q, m).loops[t].loop.pc == Done
            && StandsFor(With(q.keys, key, Finished(At(q.keys, key), t)), flags, Moved(q, m))
  {
    var s := Of(q, key);
    OwnFlags(q, flags, key);
    MovesAre(q, key, Step.Finish(t));
    FinishFlags(s, t, flags);
    PutStandsFor(q, flags, key, Apply(s, Step.Finish(t)), flags);
  }

  /** From lock to unlock a clear of these keys takes the queue from `i` to `j + 1`, other loops going on
      meanwhile. */
  ghost predicate IsClear(trace: seq<Queue>, moves: seq<Move>, i: nat, j: nat, keys: set<string>) {
    && IsQueueRun(trace, moves) && i < j < |moves| && moves[i] == Lock(keys) && moves[j] == Unlock
    && forall k :: i < k < j ==> moves[k] != Unlock
  }

  lemma SameAt(a: Keys, b: Keys)
    requires forall key :: At(a, key) == At(b, key)
    ensures a == b
  {
    assert forall key :: key in a <==> At(a, key).Some?;
    assert forall key :: key in b <==> At(b, key).Some?;
    assert forall key :: key in a ==> At(a, key).value == a[key] && At(b, key).value == b[key];
  }

  /** The contract of `RetryQueue.Clear` is that of a completed clear of one key. */
  lemma ClearIsMove(trace: seq<Queue>, moves: seq<Move>, i: nat, j: nat, key: string, flags: seq<bool>,
                    keys: Keys, raised: seq<bool>)
    requires IsClear(trace, moves, i, j, {key}) && StandsFor(trace[i].keys, flags, trace[i])
    requires keys == With(trace[i].keys, key, None) && |raised| == |flags|
    requires forall t :: 0 <= t < |flags| ==> raised[t] == (flags[t] || Running(At(trace[i].keys, key)) == Some(t))
    ensures StandsFor(keys, raised, trace[j + 1])
  {
    var before, after := trace[i], trace[j + 1];
    ClearIsExact(trace, moves, i, j);
    SameAt(keys, after.keys);
    forall t: Token | t < |raised| ensures t in after.loops && after.loops[t].loop.cancelled == raised[t] {
      assert Removed(before, {key}, t) <==> Running(At(before.keys, key)) == Some(t) by {
        assert key in {key};
      }
    }
  }

  /** The contract of `RetryQueue.ClearAll` is that of a completed clear of every key. */
  lemma ClearAllIsMove(trace: seq<Queue>, moves: seq<Move>, i: nat, j: nat, flags: seq<bool>, raised: seq<bool>)
    requires i < |trace| && IsClear(trace, moves, i, j, trace[i].keys.Keys)
    requires StandsFor(trace[i].keys, flags, trace[i]) && |raised| == |flags|
    requires forall t :: 0 <= t < |flags| ==>
               raised[t] == (flags[t] || exists k :: k in trace[i].keys && trace[i].keys[k].running == Some(t))
    ensures StandsFor(map[], raised, trace[j + 1])
  {
    var before, after := trace[i], trace[j + 1];
    ClearIsExact(trace, moves, i, j);
    SameAt(map[], after.keys);
    forall t: Token | t < |raised| ensures t in after.loops && after.loops[t].loop.cancelled == raised[t] {
      assert Removed(before, before.keys.Keys, t) <==>
               exists k :: k in before.keys && before.keys[k].running == Some(t) by {
        if k :| k in before.keys && before.keys[k].running == Some(t) {
          assert k in before.keys.Keys && Running(At(before.keys, k)) == Some(t);
        }
      }
    }
  }
}
