/** How many broker operations one second can see: over whole runs, with every authenticate and renew
    that falls into the second counted, since each starts a new budget and a new rate window. */
module BrokerRate {
  import opened Wrappers
  import opened Broker

  type Exchange = (Request, World)

  /** A connection with its whole past: when each operation was granted, and when each authenticate or
      renew was. */
  datatype Past = Past(t: Trace, all: seq<nat>, resets: seq<nat>)

  const BEGINNING := Past(START, [], [])

  ghost function Lived(p: Past, req: Request, w: World): Past {
    Past(Traced(p.t, req, w),
         if Granted(p.t.s, req, w.now) then p.all + [w.now] else p.all,
         if Served(p.t.s, req, w).1.Authorized? then p.resets + [w.now] else p.resets)
  }

  ghost predicate IsLife(past: seq<Past>, reqs: seq<Exchange>) {
    && |past| == |reqs| + 1 && past[0] == BEGINNING && Clocked(reqs)
    && forall i :: 0 <= i < |reqs| ==> past[i + 1] == Lived(past[i], reqs[i].0, reqs[i].1)
  }

  function Min(a: nat, b: nat): nat {
    if a < b then a else b
  }

  // ------------------------------ what one request adds ------------------------------

  ghost predicate Operates(p: Past, req: Request) {
    p.t.s.capability.Some? && !req.Authenticate? && !req.Renew?
  }

  lemma GrantShape(p: Past, req: Request, w: World)
    requires Operates(p, req)
    ensures var p' := Lived(p, req, w);
            var (cap, refusal) := Charged(p.t.s.capability.value, req, w.now);
            && !Served(p.t.s, req, w).1.Authorized?
            && p'.t.s.capability == Some(cap) && p'.t.since == p.t.since && p'.t.now == w.now && p'.resets == p.resets
            && p'.t.ops == (if refusal.None? then p.t.ops + [w.now] else p.t.ops)
            && p'.all == (if refusal.None? then p.all + [w.now] else p.all)
  {
    OperateShape(p.t, req, w);
    OperationSplits(p.t.s, req, w);
    DispatchKeepsCapability(WithCharge(p.t.s, req, w.now), p.t.s.capability.value.scope, req, w);
  }

  /** Anything else either starts afresh, or leaves budget, window and past as they are. */
  lemma ResetShape(p: Past, req: Request, w: World)
    requires !Operates(p, req)
    ensures var p' := Lived(p, req, w);
            && p'.all == p.all && p'.t.now == w.now
            && if Served(p.t.s, req, w).1.Authorized? then
                 && p'.resets == p.resets + [w.now] && p'.t.ops == [] && p'.t.since == w.now
                 && p'.t.s.capability.Some?
                 && p'.t.s.capability.value.windowStarted == w.now && p'.t.s.capability.value.windowOperations == 0
               else
                 && p'.resets == p.resets && p'.t.ops == p.t.ops && p'.t.since == p.t.since
                 && p'.t.s.capability == p.t.s.capability
  {
  }

  // ------------------------------ invariants ------------------------------

  /** Until one window after `since` only the first window is open, so at most `perSecond` operations
      are that early. */
  ghost predicate FirstWindow(ops: seq<nat>, since: nat, windowStarted: nat, windowOperations: nat, perSecond: nat) {
    && (windowStarted == since ==> windowOperations == |ops|)
    && (windowStarted == since || since + WINDOW_MS <= windowStarted)
    && forall i :: perSecond <= i < |ops| ==> since + WINDOW_MS <= ops[i]
  }

  ghost predicate FirstFits(p: Past) {
    p.t.s.capability.Some? ==>
      var cap := p.t.s.capability.value;
      FirstWindow(p.t.ops, p.t.since, cap.windowStarted, cap.windowOperations, cap.scope.perSecond)
  }

  /** The grants before the last authenticate or renew. */
  ghost function Before(p: Past): seq<nat> {
    if |p.t.ops| <= |p.all| then p.all[..|p.all| - |p.t.ops|] else []
  }

  ghost predicate PastFits(p: Past) {
    && p.all == Before(p) + p.t.ops
    && (p.t.s.capability.None? ==> p.all == [])
    && forall i :: 0 <= i < |Before(p)| ==> Before(p)[i] <= p.t.since
  }

  ghost predicate InSecond(now: nat, from: nat) {
    from <= now < from + WINDOW_MS
  }

  /** The grants of earlier capabilities leave room for those of the one in force. */
  ghost predicate LeavesRoom(p: Past, from: nat, two: nat, one: nat) {
    GrantedWithin(Before(p), from) + (if InSecond(p.t.since, from) then one else 0)
      <= two + GrantedWithin(p.resets, from) * one
  }

  ghost predicate Fits(p: Past, from: nat, two: nat, one: nat) {
    Inv(p.t) && FirstFits(p) && PastFits(p) && (p.t.s.capability.Some? ==> LeavesRoom(p, from, two, one))
  }

  /** What one capability can add to a second: `two` when it was there before, `one` when it came
      into force during it. */
  ghost predicate Limited(p: Past, two: nat, one: nat) {
    p.t.s.capability.Some? ==>
      var scope := p.t.s.capability.value.scope;
      Min(scope.total, 2 * scope.perSecond) <= two && Min(scope.total, scope.perSecond) <= one
  }

  lemma {:induction false} CountsAdd(a: seq<nat>, b: seq<nat>, from: nat)
    ensures GrantedWithin(a + b, from) == GrantedWithin(a, from) + GrantedWithin(b, from)
    decreases |b|
  {
    if b == [] {
      assert a + b == a;
    } else {
      CountsAdd(a, b[..|b| - 1], from);
      assert (a + b)[..|a + b| - 1] == a + b[..|b| - 1];
    }
  }

  lemma CountOne(now: nat, from: nat)
    ensures GrantedWithin([now], from) == if InSecond(now, from) then 1 else 0
  {
    assert [now][..0] == [];
    assert GrantedWithin([now][..0], from) == 0;
  }

  /** Nothing that lies outside the second from some index on counts from there. */
  lemma {:induction false} CountsUpTo(times: seq<nat>, from: nat, n: nat)
    requires forall i :: n <= i < |times| ==> !InSecond(times[i], from)
    ensures GrantedWithin(times, from) <= n
  {
    if |times| > n {
      CountsUpTo(times[..|times| - 1], from, n);
    } else {
      GrantedWithinAll(times, from);
    }
  }

  // ------------------------------ the bound ------------------------------

  lemma OperateKeepsFirst(p: Past, req: Request, w: World)
    requires Operates(p, req) && FirstFits(p) && WindowFits(p.t) && w.now >= p.t.now && p.t.since <= p.t.now
    ensures FirstFits(Lived(p, req, w))
  {
    GrantShape(p, req, w);
  }

  lemma LivedKeepsFirst(p: Past, req: Request, w: World)
    requires Inv(p.t) && FirstFits(p) && w.now >= p.t.now
    ensures FirstFits(Lived(p, req, w))
  {
    if Operates(p, req) {
      OperateKeepsFirst(p, req, w);
    } else {
      ResetShape(p, req, w);
    }
  }

  lemma PastGrows(p: Past, p': Past)
    requires PastFits(p) && p'.t.since == p.t.since
    requires p'.t.s.capability.None? ==> p'.all == []
    requires (p'.all == p.all && p'.t.ops == p.t.ops)
             || exists now :: p'.all == p.all + [now] && p'.t.ops == p.t.ops + [now]
    ensures PastFits(p') && Before(p') == Before(p)
  {
    if !(p'.all == p.all && p'.t.ops == p.t.ops) {
      var now :| p'.all == p.all + [now] && p'.t.ops == p.t.ops + [now];
      assert p'.all == Before(p) + (p.t.ops + [now]);
    }
  }

  lemma PastResets(p: Past, p': Past)
    requires PastFits(p) && p'.all == p.all && p'.t.ops == [] && p'.t.s.capability.Some?
    requires forall i :: 0 <= i < |p.all| ==> p.all[i] <= p'.t.since
    ensures PastFits(p') && Before(p') == p.all
  {
    assert p.all[..|p.all|] == p.all;
  }

  /** Everything granted so far was granted by now. */
  lemma GrantedByNow(p: Past)
    requires Inv(p.t) && PastFits(p)
    ensures forall i :: 0 <= i < |p.all| ==> p.all[i] <= p.t.now
  {
    if p.t.s.capability.Some? {
      var cap := p.t.s.capability.value;
      assert RateFits(p.t.ops, cap.windowStarted, cap.windowOperations, cap.scope.perSecond, p.t.now);
      assert forall i :: 0 <= i < |p.t.ops| ==> p.t.ops[i] <= p.t.now;
    }
  }

  lemma LivedKeepsPast(p: Past, req: Request, w: World)
    requires Inv(p.t) && PastFits(p) && w.now >= p.t.now
    ensures PastFits(Lived(p, req, w))
    ensures Before(Lived(p, req, w)) == if Served(p.t.s, req, w).1.Authorized? then p.all else Before(p)
  {
    var p' := Lived(p, req, w);
    if Operates(p, req) {
      GrantShape(p, req, w);
      PastGrows(p, p');
    } else {
      ResetShape(p, req, w);
      if Served(p.t.s, req, w).1.Authorized? {
        GrantedByNow(p);
        PastResets(p, p');
      } else {
        PastGrows(p, p');
      }
    }
  }

  /** A capability adds to a second at most `one` when it came into force during it, nothing when it
      did after it, and at most `two` otherwise. */
  lemma OneCapabilityCounts(p: Past, from: nat, two: nat, one: nat)
    requires Inv(p.t) && FirstFits(p) && Limited(p, two, one) && p.t.s.capability.Some?
    ensures GrantedWithin(p.t.ops, from) <= two
    ensures from <= p.t.since ==> GrantedWithin(p.t.ops, from) <= if InSecond(p.t.since, from) then one else 0
  {
    var scope := p.t.s.capability.value.scope;
    AccountedFor(p.t, from);
    GrantedWithinAll(p.t.ops, from);
    if from + WINDOW_MS <= p.t.since {
      CountsUpTo(p.t.ops, from, 0);
    } else if from <= p.t.since {
      CountsUpTo(p.t.ops, from, scope.perSecond);
    }
  }

  lemma TwoPartsCount(p: Past, from: nat)
    requires PastFits(p)
    ensures GrantedWithin(p.all, from) == GrantedWithin(Before(p), from) + GrantedWithin(p.t.ops, from)
    ensures p.t.since < from ==> GrantedWithin(Before(p), from) == 0
  {
    CountsAdd(Before(p), p.t.ops, from);
    if p.t.since < from {
      CountsUpTo(Before(p), from, 0);
    }
  }

  lemma ProductIsNatural(a: nat, b: nat)
    ensures a * b >= 0
  {
  }

  /** So what a second has seen in all is bounded. */
  lemma FitsBounds(p: Past, from: nat, two: nat, one: nat)
    requires Fits(p, from, two, one) && Limited(p, two, one)
    ensures GrantedWithin(p.all, from) <= two + GrantedWithin(p.resets, from) * one
  {
    ProductIsNatural(GrantedWithin(p.resets, from), one);
    if p.t.s.capability.Some? {
      OneCapabilityCounts(p, from, two, one);
      TwoPartsCount(p, from);
    }
  }

  lemma OneMore(count: nat, more: nat, one: nat)
    requires more <= 1
    ensures (count + more) * one == count * one + if more == 1 then one else 0
  {
  }

  lemma LivedLeavesRoom(p: Past, req: Request, w: World, from: nat, two: nat, one: nat)
    requires Fits(p, from, two, one) && Limited(p, two, one) && w.now >= p.t.now
    ensures var p' := Lived(p, req, w); p'.t.s.capability.Some? ==> LeavesRoom(p', from, two, one)
  {
    if Served(p.t.s, req, w).1.Authorized? {
      GrantLeavesRoom(p, req, w, from, two, one);
    } else {
      OperationLeavesRoom(p, req, w, from, two, one);
    }
  }

  lemma GrantLeavesRoom(p: Past, req: Request, w: World, from: nat, two: nat, one: nat)
    requires Fits(p, from, two, one) && Limited(p, two, one) && w.now >= p.t.now
    requires Served(p.t.s, req, w).1.Authorized?
    ensures LeavesRoom(Lived(p, req, w), from, two, one)
  {
    LivedKeepsPast(p, req, w);
    if Operates(p, req) { GrantShape(p, req, w); } else { ResetShape(p, req, w); }
    FitsBounds(p, from, two, one);
    CountsAdd(p.resets, [w.now], from);
    CountOne(w.now, from);
    OneMore(GrantedWithin(p.resets, from), GrantedWithin([w.now], from), one);
  }

  lemma OperationLeavesRoom(p: Past, req: Request, w: World, from: nat, two: nat, one: nat)
    requires Fits(p, from, two, one) && w.now >= p.t.now && !Served(p.t.s, req, w).1.Authorized?
    ensures var p' := Lived(p, req, w); p'.t.s.capability.Some? ==> LeavesRoom(p', from, two, one)
  {
    LivedKeepsPast(p, req, w);
    if Operates(p, req) { GrantShape(p, req, w); } else { ResetShape(p, req, w); }
  }

  lemma LivedFits(p: Past, req: Request, w: World, from: nat, two: nat, one: nat)
    requires Fits(p, from, two, one) && Limited(p, two, one) && w.now >= p.t.now
    ensures Fits(Lived(p, req, w), from, two, one)
  {
    ServeKeeps(p.t, req, w);
    LivedKeepsFirst(p, req, w);
    LivedKeepsPast(p, req, w);
    LivedLeavesRoom(p, req, w, from, two, one);
  }

  lemma {:induction false} LifeFits(past: seq<Past>, reqs: seq<Exchange>, n: nat, from: nat, two: nat, one: nat)
    requires IsLife(past, reqs) && n <= |reqs| && forall i :: 0 <= i < n ==> Limited(past[i], two, one)
    ensures Fits(past[n], from, two, one) && (n > 0 ==> past[n].t.now == reqs[n - 1].1.now)
    ensures n == 0 ==> past[n].t.now == 0
  {
    if n > 0 {
      LifeFits(past, reqs, n - 1, from, two, one);
      LivedFits(past[n - 1], reqs[n - 1].0, reqs[n - 1].1, from, two, one);
    }
  }

  /** Over any run, whatever scopes it is granted: one second sees at most what the capability from
      before it allows across two windows, and for each authenticate or renew during it what that one
      allows in its first. */
  lemma SecondIsBounded(past: seq<Past>, reqs: seq<Exchange>, n: nat, from: nat, two: nat, one: nat)
    requires IsLife(past, reqs) && n <= |reqs| && forall i :: 0 <= i <= n ==> Limited(past[i], two, one)
    ensures GrantedWithin(past[n].all, from) <= two + GrantedWithin(past[n].resets, from) * one
  {
    LifeFits(past, reqs, n, from, two, one);
    FitsBounds(past[n], from, two, one);
  }

  // ------------------------------ runs that reach it ------------------------------

  ghost predicate Under(scope: Scope, p: Past) {
    p.t.s.capability.Some? ==> p.t.s.capability.value.scope == scope
  }

  /** Some run, all of whose capabilities are of this scope, leads here. */
  ghost predicate Possible(scope: Scope, p: Past) {
    exists past, reqs :: IsLife(past, reqs) && AllUnder(scope, past) && past[|reqs|] == p
  }

  ghost predicate AllUnder(scope: Scope, past: seq<Past>) {
    forall i :: 0 <= i < |past| ==> Under(scope, past[i])
  }

  lemma LifeGoesOn(past: seq<Past>, reqs: seq<Exchange>, req: Request, w: World)
    requires IsLife(past, reqs) && past[|reqs|].t.now <= w.now
    ensures IsLife(past + [Lived(past[|reqs|], req, w)], reqs + [(req, w)])
  {
    var p := past[|reqs|];
    var reqs' := reqs + [(req, w)];
    var n := |reqs|;
    if n > 0 {
      assert p.t.now == reqs[n - 1].1.now;
    }
    forall i, j | 0 <= i < j < |reqs'| ensures reqs'[i].1.now <= reqs'[j].1.now {
      if j == n && i < n - 1 { assert reqs[i].1.now <= reqs[n - 1].1.now; }
    }
  }

  lemma PossibleNext(scope: Scope, p: Past, req: Request, w: World)
    requires Possible(scope, p) && p.t.now <= w.now && Under(scope, Lived(p, req, w))
    ensures Possible(scope, Lived(p, req, w))
  {
    var past, reqs :| IsLife(past, reqs) && AllUnder(scope, past) && past[|reqs|] == p;
    LifeGoesOn(past, reqs, req, w);
    var past', reqs' := past + [Lived(p, req, w)], reqs + [(req, w)];
    assert AllUnder(scope, past') && past'[|reqs'|] == Lived(p, req, w);
  }

  /** An operation every capability of the scope covers. */
  function CoveredBy(scope: Scope): Request {
    match scope
    case Smbus(_, _, _, _) => SupportsBlockWrite(0)
    case AmdSmn(_, _) => ReadSmn(0, 0)
    case LpcIo(_, _) => Lpc(0, FindBars)
  }

  function Moment(now: nat, buses: seq<BusInfo>): World {
    World(now, "", Some(""), buses, true)
  }

  /** The second the bursts below are counted in: from the last millisecond of the first window. */
  const FROM := WINDOW_MS - 1

  /** Where a burst stands: under this scope, so much of the budget and of the window used. */
  ghost predicate Stands(scope: Scope, p: Past, windowStarted: nat, windowOperations: nat, remaining: nat) {
    && Possible(scope, p) && p.t.s.capability.Some?
    && var cap := p.t.s.capability.value;
       && cap.scope == scope && cap.windowStarted == windowStarted && cap.windowOperations == windowOperations
       && cap.remaining == remaining && cap.expires > WINDOW_MS
  }

  lemma OperateOnce(scope: Scope, p: Past, now: nat, windowStarted: nat, windowOperations: nat, remaining: nat)
    returns (p': Past)
    requires Stands(scope, p, windowStarted, windowOperations, remaining) && remaining >= 1
    requires p.t.now <= now <= WINDOW_MS && 1 <= scope.perSecond
    requires windowOperations < scope.perSecond || windowStarted + WINDOW_MS <= now
    ensures var over := windowStarted + WINDOW_MS <= now;
            Stands(scope, p', if over then now else windowStarted, if over then 1 else windowOperations + 1,
                   remaining - 1)
    ensures p'.all == p.all + [now] && p'.resets == p.resets && p'.t.now == now
  {
    var req := CoveredBy(scope);
    p' := Lived(p, req, Moment(now, []));
    GrantShape(p, req, Moment(now, []));
    PossibleNext(scope, p, req, Moment(now, []));
  }

  /** What the second has seen. */
  ghost predicate Seen(p: Past, operations: nat, resets: nat) {
    GrantedWithin(p.all, FROM) == operations && GrantedWithin(p.resets, FROM) == resets
  }

  lemma {:induction false} OperateRepeatedly(scope: Scope, p: Past, now: nat, windowStarted: nat, windowOperations: nat,
                                             remaining: nat, k: nat, operations: nat, resets: nat) returns (p': Past)
    requires Stands(scope, p, windowStarted, windowOperations, remaining) && remaining >= k && 1 <= scope.perSecond
    requires p.t.now <= now <= WINDOW_MS && FROM <= now < windowStarted + WINDOW_MS
    requires windowOperations + k <= scope.perSecond && Seen(p, operations, resets)
    ensures Stands(scope, p', windowStarted, windowOperations + k, remaining - k) && p'.t.now <= now
    ensures Seen(p', operations + k, resets)
  {
    if k == 0 {
      p' := p;
    } else {
      var q := OperateRepeatedly(scope, p, now, windowStarted, windowOperations, remaining, k - 1, operations, resets);
      p' := OperateOnce(scope, q, now, windowStarted, windowOperations + k - 1, remaining - (k - 1));
      CountsAdd(q.all, [now], FROM);
      CountOne(now, FROM);
    }
  }

  lemma RenewOnce(scope: Scope, p: Past, operations: nat, resets: nat, windowStarted: nat, windowOperations: nat,
                  remaining: nat) returns (p': Past)
    requires Stands(scope, p, windowStarted, windowOperations, remaining) && p.t.now <= WINDOW_MS
    requires Seen(p, operations, resets)
    ensures Stands(scope, p', WINDOW_MS, 0, scope.total) && p'.t.now == WINDOW_MS && Seen(p', operations, resets + 1)
  {
    var req := Renew(p.t.s.capability.value.id);
    p' := Lived(p, req, Moment(WINDOW_MS, []));
    PossibleNext(scope, p, req, Moment(WINDOW_MS, []));
    CountsAdd(p.resets, [WINDOW_MS], FROM);
    CountOne(WINDOW_MS, FROM);
  }

  /** Renewing and using up the first window, `m` times in one millisecond. */
  lemma {:induction false} RenewRepeatedly(scope: Scope, p: Past, windowStarted: nat, windowOperations: nat,
                                           remaining: nat, operations: nat, m: nat) returns (p': Past)
    requires Stands(scope, p, windowStarted, windowOperations, remaining) && p.t.now <= WINDOW_MS
    requires 1 <= scope.perSecond && Seen(p, operations, 0)
    ensures Possible(scope, p') && Seen(p', operations + m * Min(scope.total, scope.perSecond), m)
    ensures p'.t.now <= WINDOW_MS && exists ws, wo, rem :: Stands(scope, p', ws, wo, rem)
  {
    var one := Min(scope.total, scope.perSecond);
    if m == 0 {
      p' := p;
    } else {
      var q := RenewRepeatedly(scope, p, windowStarted, windowOperations, remaining, operations, m - 1);
      p' := RenewRound(scope, q, operations + (m - 1) * one, m - 1);
      OneMore(m - 1, 1, one);
    }
  }

  lemma RenewRound(scope: Scope, q: Past, operations: nat, resets: nat) returns (p': Past)
    requires 1 <= scope.perSecond && Seen(q, operations, resets) && q.t.now <= WINDOW_MS
    requires exists ws, wo, rem :: Stands(scope, q, ws, wo, rem)
    ensures Possible(scope, p') && Seen(p', operations + Min(scope.total, scope.perSecond), resets + 1)
    ensures p'.t.now <= WINDOW_MS && exists ws, wo, rem :: Stands(scope, p', ws, wo, rem)
  {
    var one := Min(scope.total, scope.perSecond);
    var ws, wo, rem :| Stands(scope, q, ws, wo, rem);
    var r := RenewOnce(scope, q, operations, resets, ws, wo, rem);
    p' := OperateRepeatedly(scope, r, WINDOW_MS, WINDOW_MS, 0, scope.total, one, operations, resets + 1);
  }

  lemma BurstBegins(asked: Scope, buses: seq<BusInfo>) returns (p: Past)
    requires ValidateScope(asked, buses).Ok?
    ensures var scope := ValidateScope(asked, buses).value; Stands(scope, p, 0, 0, scope.total)
    ensures p.t.now == 0 && Seen(p, 0, 0)
  {
    var scope := ValidateScope(asked, buses).value;
    var past, reqs: seq<Exchange> := [BEGINNING], [];
    assert IsLife(past, reqs) && AllUnder(scope, past) && past[|reqs|] == BEGINNING;
    var req, w := Authenticate("", asked), Moment(0, buses);
    p := Lived(BEGINNING, req, w);
    PossibleNext(scope, BEGINNING, req, w);
    assert [0][..0] == [];
    CountOne(0, FROM);
  }

  /** A burst to either side of the first window's end. */
  lemma BurstAcross(asked: Scope, buses: seq<BusInfo>) returns (p: Past)
    requires ValidateScope(asked, buses).Ok?
    ensures var scope := ValidateScope(asked, buses).value;
            && (exists ws, wo, rem :: Stands(scope, p, ws, wo, rem)) && p.t.now <= WINDOW_MS
            && Seen(p, Min(scope.total, 2 * scope.perSecond), 0)
  {
    ScopeIsGrantedIff(asked, buses);
    var scope := ValidateScope(asked, buses).value;
    var early := Min(scope.total, scope.perSecond);
    var late := Min(scope.total - early, scope.perSecond);
    var q := BurstBegins(asked, buses);
    p := OperateRepeatedly(scope, q, FROM, 0, 0, scope.total, early, 0, 0);
    if late > 0 {
      var r := OperateOnce(scope, p, WINDOW_MS, 0, early, scope.total - early);
      CountsAdd(p.all, [WINDOW_MS], FROM);
      CountOne(WINDOW_MS, FROM);
      p := OperateRepeatedly(scope, r, WINDOW_MS, WINDOW_MS, 1, scope.total - early - 1, late - 1, early + 1, 0);
    }
  }

  // ------------------------------ the exact worst second ------------------------------

  /** Every second of every run under this scope with at most `resets` authenticates and renews. */
  ghost predicate NoSecondExceeds(scope: Scope, resets: nat, most: nat) {
    forall p, from: nat :: Possible(scope, p) && GrantedWithin(p.resets, from) <= resets ==>
      GrantedWithin(p.all, from) <= most
  }

  ghost predicate SomeSecondReaches(scope: Scope, resets: nat, count: nat) {
    exists p, from: nat ::
      Possible(scope, p) && GrantedWithin(p.resets, from) == resets && GrantedWithin(p.all, from) == count
  }

  function Worst(scope: Scope, resets: nat): nat {
    Min(scope.total, 2 * scope.perSecond) + resets * Min(scope.total, scope.perSecond)
  }

  lemma PossibleIsBounded(scope: Scope, p: Past, from: nat)
    requires Possible(scope, p)
    ensures GrantedWithin(p.all, from) <= Worst(scope, GrantedWithin(p.resets, from))
  {
    var past, reqs :| IsLife(past, reqs) && AllUnder(scope, past) && past[|reqs|] == p;
    var two, one := Min(scope.total, 2 * scope.perSecond), Min(scope.total, scope.perSecond);
    forall i | 0 <= i <= |reqs| ensures Limited(past[i], two, one) {
      assert Under(scope, past[i]);
    }
    SecondIsBounded(past, reqs, |reqs|, from, two, one);
  }

  lemma MoreResets(fewer: nat, more: nat, one: nat)
    requires fewer <= more
    ensures fewer * one <= more * one
  {
  }

  /** The greatest number of operations one second of a run can see is exactly this: no run exceeds it,
      and for every scope that can be granted and every number of renewals a run reaches it. */
  lemma WorstSecond(asked: Scope, buses: seq<BusInfo>, resets: nat)
    requires ValidateScope(asked, buses).Ok?
    ensures var scope := ValidateScope(asked, buses).value;
            && NoSecondExceeds(scope, resets, Worst(scope, resets))
            && SomeSecondReaches(scope, resets, Worst(scope, resets))
  {
    ScopeIsGrantedIff(asked, buses);
    var scope := ValidateScope(asked, buses).value;
    forall p, from: nat | Possible(scope, p) && GrantedWithin(p.resets, from) <= resets
      ensures GrantedWithin(p.all, from) <= Worst(scope, resets)
    {
      PossibleIsBounded(scope, p, from);
      MoreResets(GrantedWithin(p.resets, from), resets, Min(scope.total, scope.perSecond));
    }
    var p := BurstAcross(asked, buses);
    var ws, wo, rem :| Stands(scope, p, ws, wo, rem);
    var p' := RenewRepeatedly(scope, p, ws, wo, rem, Min(scope.total, 2 * scope.perSecond), resets);
    assert Possible(scope, p') && GrantedWithin(p'.resets, FROM) == resets;
  }

  /** The scoped rate bounds every second with so many authenticates and renews exactly when that many
      budgets and one more fit into it; with none, when the budget does. */
  lemma RateHoldsIff(asked: Scope, buses: seq<BusInfo>, resets: nat)
    requires ValidateScope(asked, buses).Ok?
    ensures var scope := ValidateScope(asked, buses).value;
            NoSecondExceeds(scope, resets, scope.perSecond) <==> (resets + 1) * scope.total <= scope.perSecond
  {
    WorstSecond(asked, buses, resets);
    ScopeIsGrantedIff(asked, buses);
    var scope := ValidateScope(asked, buses).value;
    var p, from: nat :| Possible(scope, p) && GrantedWithin(p.resets, from) == resets
                        && GrantedWithin(p.all, from) == Worst(scope, resets);
    WorstIsWithinIff(scope, resets);
  }

  lemma WorstIsWithinIff(scope: Scope, resets: nat)
    requires 1 <= scope.total && 1 <= scope.perSecond
    ensures Worst(scope, resets) <= scope.perSecond <==> (resets + 1) * scope.total <= scope.perSecond
  {
    ProductIsNatural(resets, Min(scope.total, scope.perSecond));
    ProductIsNatural(resets, scope.total);
    assert (resets + 1) * scope.total == resets * scope.total + scope.total;
  }

  /** With renewals, which cost nothing, no bound holds: for every scope that can be granted, some
      second of some run sees more operations than any given number. */
  lemma RenewalsExceedAnyBound(asked: Scope, buses: seq<BusInfo>, bound: nat)
    requires ValidateScope(asked, buses).Ok?
    ensures var scope := ValidateScope(asked, buses).value;
            exists p, from: nat :: Possible(scope, p) && GrantedWithin(p.all, from) > bound
  {
    WorstSecond(asked, buses, bound);
    ScopeIsGrantedIff(asked, buses);
    var scope := ValidateScope(asked, buses).value;
    var p, from: nat :| Possible(scope, p) && GrantedWithin(p.resets, from) == bound
                        && GrantedWithin(p.all, from) == Worst(scope, bound);
    AtLeast(bound, Min(scope.total, scope.perSecond));
  }

  lemma AtLeast(n: nat, one: nat)
    requires one >= 1
    ensures n * one >= n
  {
  }
}
