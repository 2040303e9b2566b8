/** One broker connection: its capability, scope, handles and operation rate. */
module Broker {
  import opened Wrappers

  const U32_MAX: nat := 0xFFFF_FFFF
  const MAX_HANDLES_PER_KIND := 64
  const CAPABILITY_TTL_MS := 60_000
  const WINDOW_MS := 1_000
  const MAX_SCOPE_ADDRESSES := 256
  const MAX_OPERATIONS_PER_SECOND: nat := 20_000
  const MAX_OPERATIONS_PER_CAPABILITY: nat := 1_000_000
  const SMBUS_BLOCK_MAX := 32

  type u8 = n: nat | n < 256

  /** Which controller a bus is; the PCI identity is part of the name. */
  datatype BusInfo = BusInfo(number: nat, identity: string)

  datatype Scope =
    | Smbus(bus: BusInfo, addresses: seq<u8>, perSecond: nat, total: nat)
    | AmdSmn(perSecond: nat, total: nat)
    | LpcIo(perSecond: nat, total: nat)

  /** The six transfers of `SmBusSyncOps`, with everything the request hands on. */
  datatype Transfer =
    | ReadByte
    | ReadByteData(cmd: u8)
    | WriteQuick
    | WriteByteData(cmd: u8, val: u8)
    | WriteWordData(cmd: u8, word: nat)
    | WriteBlockData(cmd: u8, data: seq<u8>)

  /** The LPC operations that carry a handle; only `SelectSlot` is checked further. */
  datatype LpcOp =
    | SelectSlot(slot: nat)
    | FindBars
    | ReadPort(port: nat)
    | WritePort(port: nat, value: u8)
    | SuperioInb(register: u8)
    | SuperioOutb(register: u8, value: u8)

  datatype Request =
    | Authenticate(token: string, scope: Scope)
    | Renew(capability: string)
    | OpenBus(info: BusInfo)
    | BusTransfer(bus: nat, addr: u8, transfer: Transfer)
    | SupportsBlockWrite(bus: nat)
    | OpenAmdSmn
    | ReadSmn(handle: nat, offset: nat)
    | OpenLpcIo
    | Lpc(handle: nat, op: LpcOp)

  datatype Kind = SmnKind | LpcKind

  /** What reached the hardware layer. */
  datatype Effect =
    | Transferred(bus: BusInfo, addr: u8, transfer: Transfer)
    | Queried(bus: BusInfo)
    | SmnWasRead(offset: nat)
    | LpcDone(op: LpcOp)

  /** Why a request was turned down. The last five are the dispatcher's own checks. */
  datatype Refusal =
    | BadBootstrapToken | BadAddressCount | BusNotEnumerated | NoRandomness | NotAuthenticated
    | BadCapability | CapabilityExpired | OutsideCapability | AddressOutsideCapability | BadBlockLength
    | BadSlot | BudgetExhausted | RateExceeded | NoHandleLeft | OpenFailed | UnknownBus | UnknownRegisterHandle
    | OpenUnderAnotherCapability | BusOutsideCapability | HandleOfAnotherKind | BadSlotAtDispatch | NotAnOperation

  datatype Response =
    | Authorized(capability: string)
    | Opened(id: nat)
    | Performed(effect: Effect)
    | Refused(reason: Refusal)

  /** The world one request meets: the clock in milliseconds, the broker's secret, the random
      token drawn (none when the generator fails), the enumerated buses, and whether the device
      layer can open what it is asked to. */
  datatype World = World(now: nat, secret: string, token: Option<string>, buses: seq<BusInfo>, opens: bool)

  datatype Capability = Capability(
    id: string,
    scope: Scope,
    expires: nat,
    remaining: nat,
    windowStarted: nat,
    windowOperations: nat)

  /** A bus handle is the controller it was opened for; a register handle is its kind. */
  datatype State = State(
    buses: map<nat, BusInfo>,
    nextBus: nat,
    registers: map<nat, Kind>,
    nextRegister: nat,
    capability: Option<Capability>)

  const NEW_CONNECTION := State(map[], 0, map[], 0, None)

  // ------------------------------ scopes ------------------------------

  function Insert(addresses: seq<u8>, a: u8): seq<u8> {
    if addresses == [] || a < addresses[0] then [a] + addresses
    else if a == addresses[0] then addresses
    else [addresses[0]] + Insert(addresses[1..], a)
  }

  /** `sort_unstable` then `dedup`. */
  function SortedDistinct(addresses: seq<u8>): seq<u8> {
    if addresses == [] then [] else Insert(SortedDistinct(addresses[1..]), addresses[0])
  }

  function Clamp(n: nat, most: nat): nat {
    if n < 1 then 1 else if n > most then most else n
  }

  function ValidateScope(scope: Scope, buses: seq<BusInfo>): Result<Scope, Refusal> {
    match scope
    case Smbus(bus, addresses, perSecond, total) =>
      var distinct := SortedDistinct(addresses);
      if distinct == [] || |distinct| > MAX_SCOPE_ADDRESSES then Err(BadAddressCount)
      else if bus !in buses then Err(BusNotEnumerated)
      else
        Ok(Smbus(bus, distinct, Clamp(perSecond, MAX_OPERATIONS_PER_SECOND),
                 Clamp(total, MAX_OPERATIONS_PER_CAPABILITY)))
    case AmdSmn(perSecond, total) =>
      Ok(AmdSmn(Clamp(perSecond, MAX_OPERATIONS_PER_SECOND), Clamp(total, MAX_OPERATIONS_PER_CAPABILITY)))
    case LpcIo(perSecond, total) =>
      Ok(LpcIo(Clamp(perSecond, MAX_OPERATIONS_PER_SECOND), Clamp(total, MAX_OPERATIONS_PER_CAPABILITY)))
  }

  function RequestAllowed(scope: Scope, req: Request): Option<Refusal> {
    match scope
    case Smbus(bus, addresses, _, _) =>
      if req.OpenBus? && req.info == bus then None
      else if req.SupportsBlockWrite? then None
      else if !req.BusTransfer? then Some(OutsideCapability)
      else if req.addr !in addresses then Some(AddressOutsideCapability)
      else if req.transfer.WriteBlockData? && !(1 <= |req.transfer.data| <= SMBUS_BLOCK_MAX)
        then Some(BadBlockLength)
      else None
    case AmdSmn(_, _) =>
      if req.OpenAmdSmn? || req.ReadSmn? then None else Some(OutsideCapability)
    case LpcIo(_, _) =>
      if req.OpenLpcIo? then None
      else if !req.Lpc? then Some(OutsideCapability)
      else if req.op.SelectSlot? && req.op.slot > 1 then Some(BadSlot)
      else None
  }

  // ------------------------------ one request ------------------------------

  function Authenticated(s: State, token: string, scope: Scope, w: World): (State, Response) {
    if token != w.secret then (s, Refused(BadBootstrapToken))
    else
      var valid := ValidateScope(scope, w.buses);
      if valid.Err? then (s, Refused(valid.error))
      else if w.token.None? then (s, Refused(NoRandomness))
      else
        var cap := Capability(w.token.value, valid.value, w.now + CAPABILITY_TTL_MS, valid.value.total, w.now, 0);
        (State(map[], s.nextBus, map[], s.nextRegister, Some(cap)), Authorized(cap.id))
  }

  function Renewed(s: State, capability: string, w: World): (State, Response) {
    if s.capability.None? then (s, Refused(NotAuthenticated))
    else
      var cap := s.capability.value;
      if capability != cap.id then (s, Refused(BadCapability))
      else if w.now >= cap.expires then (s, Refused(CapabilityExpired))
      else if w.token.None? then (s, Refused(NoRandomness))
      else
        var renewed := Capability(w.token.value, cap.scope, w.now + CAPABILITY_TTL_MS, cap.scope.total, w.now, 0);
        (s.(capability := Some(renewed)), Authorized(renewed.id))
  }

  /** The capability after one operation is granted under it, or why it is not. A window that is
      over is restarted even when the request then exceeds the rate. */
  function Charged(cap: Capability, req: Request, now: nat): (Capability, Option<Refusal>) {
    var refusal := RequestAllowed(cap.scope, req);
    if now >= cap.expires then (cap, Some(CapabilityExpired))
    else if refusal.Some? then (cap, refusal)
    else if cap.remaining == 0 then (cap, Some(BudgetExhausted))
    else
      var c := if now >= cap.windowStarted + WINDOW_MS then cap.(windowStarted := now, windowOperations := 0) else cap;
      if c.windowOperations >= c.scope.perSecond then (c, Some(RateExceeded))
      else (c.(windowOperations := c.windowOperations + 1, remaining := c.remaining - 1), None)
  }

  function NextHandle(open: nat, next: nat): Option<nat> {
    if open >= MAX_HANDLES_PER_KIND || next >= U32_MAX then None else Some(next + 1)
  }

  function OnRegister(s: State, handle: nat, want: Kind, effect: Effect): Response {
    if handle !in s.registers then Refused(UnknownRegisterHandle)
    else if s.registers[handle] != want then Refused(HandleOfAnotherKind)
    else Performed(effect)
  }

  function OpenRegister(s: State, kind: Kind, w: World): (State, Response) {
    var id := NextHandle(|s.registers|, s.nextRegister);
    if id.None? then (s, Refused(NoHandleLeft))
    else
      var t := s.(nextRegister := id.value);
      if !w.opens then (t, Refused(OpenFailed))
      else (t.(registers := t.registers[id.value := kind]), Opened(id.value))
  }

  function Dispatched(s: State, scope: Scope, req: Request, w: World): (State, Response) {
    match req
    case OpenBus(info) =>
      if !scope.Smbus? then (s, Refused(OpenUnderAnotherCapability))
      else if info != scope.bus then (s, Refused(BusOutsideCapability))
      else
        var id := NextHandle(|s.buses|, s.nextBus);
        if id.None? then (s, Refused(NoHandleLeft))
        else
          var t := s.(nextBus := id.value);
          if !w.opens then (t, Refused(OpenFailed))
          else (t.(buses := t.buses[id.value := info]), Opened(id.value))
    case BusTransfer(bus, addr, transfer) =>
      if bus in s.buses then (s, Performed(Transferred(s.buses[bus], addr, transfer))) else (s, Refused(UnknownBus))
    case SupportsBlockWrite(bus) =>
      if bus in s.buses then (s, Performed(Queried(s.buses[bus]))) else (s, Refused(UnknownBus))
    case OpenAmdSmn => OpenRegister(s, SmnKind, w)
    case ReadSmn(handle, offset) => (s, OnRegister(s, handle, SmnKind, SmnWasRead(offset)))
    case OpenLpcIo => OpenRegister(s, LpcKind, w)
    case Lpc(handle, op) =>
      var r := OnRegister(s, handle, LpcKind, LpcDone(op));
      (s, if r.Performed? && op.SelectSlot? && op.slot > 1 then Refused(BadSlotAtDispatch) else r)
    case Authenticate(_, _) => (s, Refused(NotAnOperation))
    case Renew(_) => (s, Refused(NotAnOperation))
  }

  function Operated(s: State, req: Request, w: World): (State, Response) {
    if s.capability.None? then (s, Refused(NotAuthenticated))
    else
      var (cap, refusal) := Charged(s.capability.value, req, w.now);
      var t := s.(capability := Some(cap));
      if refusal.Some? then (t, Refused(refusal.value)) else Dispatched(t, cap.scope, req, w)
  }

  function Served(s: State, req: Request, w: World): (State, Response) {
    if req.Authenticate? then Authenticated(s, req.token, req.scope, w)
    else if req.Renew? then Renewed(s, req.capability, w)
    else Operated(s, req, w)
  }

  class Conn {
    var buses: map<nat, BusInfo>
    var nextBus: nat
    var registers: map<nat, Kind>
    var nextRegister: nat
    var capability: Option<Capability>

    constructor ()
      ensures View() == NEW_CONNECTION
    {
      buses, nextBus, registers, nextRegister, capability := map[], 0, map[], 0, None;
    }

    function View(): State
      reads this
    {
      State(buses, nextBus, registers, nextRegister, capability)
    }

    method Authenticate(token: string, scope: Scope, w: World) returns (r: Response)
      modifies this
      ensures (View(), r) == Authenticated(old(View()), token, scope, w)
    {
      if token != w.secret {
        return Refused(BadBootstrapToken);
      }
      var valid := ValidateScope(scope, w.buses);
      if valid.Err? {
        return Refused(valid.error);
      }
      if w.token.None? {
        return Refused(NoRandomness);
      }
      buses, registers := map[], map[];
      capability := Some(Capability(w.token.value, valid.value, w.now + CAPABILITY_TTL_MS,
                                    valid.value.total, w.now, 0));
      return Authorized(w.token.value);
    }

    method Renew(id: string, w: World) returns (r: Response)
      modifies this`capability
      ensures (View(), r) == Renewed(old(View()), id, w)
    {
      if capability.None? {
        return Refused(NotAuthenticated);
      }
      var cap := capability.value;
      if id != cap.id {
        return Refused(BadCapability);
      }
      if w.now >= cap.expires {
        return Refused(CapabilityExpired);
      }
      if w.token.None? {
        return Refused(NoRandomness);
      }
      capability := Some(cap.(id := w.token.value, expires := w.now + CAPABILITY_TTL_MS,
                              remaining := cap.scope.total, windowStarted := w.now, windowOperations := 0));
      return Authorized(w.token.value);
    }

    method Authorize(req: Request, now: nat) returns (r: Result<Scope, Refusal>)
      modifies this`capability
      ensures old(capability).None? ==> r.Err? && capability.None?
      ensures old(capability).Some? ==>
        var (cap, refusal) := Charged(old(capability).value, req, now);
        && capability == Some(cap)
        && r == if refusal.Some? then Err(refusal.value) else Ok(cap.scope)
    {
      if capability.None? {
        return Err(NotAuthenticated);
      }
      var cap := capability.value;
      if now >= cap.expires {
        return Err(CapabilityExpired);
      }
      var refusal := RequestAllowed(cap.scope, req);
      if refusal.Some? {
        return Err(refusal.value);
      }
      if cap.remaining == 0 {
        return Err(BudgetExhausted);
      }
      if now >= cap.windowStarted + WINDOW_MS {
        cap := cap.(windowStarted := now, windowOperations := 0);
        capability := Some(cap);
      }
      if cap.windowOperations >= cap.scope.perSecond {
        return Err(RateExceeded);
      }
      capability := Some(cap.(windowOperations := cap.windowOperations + 1, remaining := cap.remaining - 1));
      return Ok(cap.scope);
    }

    method Serve(req: Request, w: World) returns (r: Response)
      modifies this
      ensures (View(), r) == Served(old(View()), req, w)
    {
      match req
      case Authenticate(token, scope) => r := Authenticate(token, scope, w);
      case Renew(id) => r := Renew(id, w);
      case _ =>
        if capability.None? {
          return Refused(NotAuthenticated);
        }
        var authorized := Authorize(req, w.now);
        if authorized.Err? {
          return Refused(authorized.error);
        }
        r := Dispatch(authorized.value, req, w);
    }

    method Dispatch(scope: Scope, req: Request, w: World) returns (r: Response)
      modifies this
      ensures (View(), r) == Dispatched(old(View()), scope, req, w)
    {
      match req
      case OpenBus(info) =>
        if !scope.Smbus? {
          return Refused(OpenUnderAnotherCapability);
        }
        if info != scope.bus {
          return Refused(BusOutsideCapability);
        }
        var id := NextHandle(|buses|, nextBus);
        if id.None? {
          return Refused(NoHandleLeft);
        }
        nextBus := id.value;
        if !w.opens {
          return Refused(OpenFailed);
        }
        buses := buses[id.value := info];
        return Opened(id.value);
      case BusTransfer(bus, addr, transfer) => r := WithBus(bus, b => Transferred(b, addr, transfer));
      case SupportsBlockWrite(bus) => r := WithBus(bus, b => Queried(b));
      case OpenAmdSmn => r := OpenModule(SmnKind, w);
      case ReadSmn(handle, offset) => r := OnRegister(View(), handle, SmnKind, SmnWasRead(offset));
      case OpenLpcIo => r := OpenModule(LpcKind, w);
      case Lpc(handle, op) =>
        r := OnRegister(View(), handle, LpcKind, LpcDone(op));
        if r.Performed? && op.SelectSlot? && op.slot > 1 {
          r := Refused(BadSlotAtDispatch);
        }
      case Authenticate(_, _) => r := Refused(NotAnOperation);
      case Renew(_) => r := Refused(NotAnOperation);
    }

    method WithBus(bus: nat, f: BusInfo -> Effect) returns (r: Response)
      ensures r == if bus in buses then Performed(f(buses[bus])) else Refused(UnknownBus)
    {
      r := if bus in buses then Performed(f(buses[bus])) else Refused(UnknownBus);
    }

    method OpenModule(kind: Kind, w: World) returns (r: Response)
      modifies this
      ensures (View(), r) == OpenRegister(old(View()), kind, w)
    {
      var id := NextHandle(|registers|, nextRegister);
      if id.None? {
        return Refused(NoHandleLeft);
      }
      nextRegister := id.value;
      if !w.opens {
        return Refused(OpenFailed);
      }
      registers := registers[id.value := kind];
      return Opened(id.value);
    }
  }

  // ------------------------------ scope facts ------------------------------

  ghost predicate StrictlyIncreasing(a: seq<nat>) {
    forall i, j :: 0 <= i < j < |a| ==> a[i] < a[j]
  }

  lemma {:induction false} InsertKeeps(addresses: seq<u8>, a: u8)
    requires StrictlyIncreasing(addresses)
    ensures StrictlyIncreasing(Insert(addresses, a))
    ensures forall x :: x in Insert(addresses, a) <==> x == a || x in addresses
  {
    if addresses != [] && a > addresses[0] {
      InsertKeeps(addresses[1..], a);
      var rest := Insert(addresses[1..], a);
      forall i | 0 <= i < |rest| ensures addresses[0] < rest[i] {
        assert rest[i] in rest;
      }
      assert addresses == [addresses[0]] + addresses[1..];
    }
  }

  lemma {:induction false} SortedDistinctKeeps(addresses: seq<u8>)
    ensures StrictlyIncreasing(SortedDistinct(addresses))
    ensures forall x :: x in SortedDistinct(addresses) <==> x in addresses
  {
    if addresses != [] {
      SortedDistinctKeeps(addresses[1..]);
      InsertKeeps(SortedDistinct(addresses[1..]), addresses[0]);
      assert addresses == [addresses[0]] + addresses[1..];
    }
  }

  lemma {:induction false} IncreasingIsSpread(a: seq<nat>, i: nat)
    requires StrictlyIncreasing(a) && i < |a|
    ensures i <= a[i]
  {
    if i > 0 { IncreasingIsSpread(a, i - 1); }
  }

  /** An SMBus scope is granted exactly for an enumerated bus and at least one address: after
      deduplication there are never more than 256, so that limit cannot be what refuses it. */
  lemma ScopeIsGrantedIff(scope: Scope, buses: seq<BusInfo>)
    ensures ValidateScope(scope, buses).Ok? <==> scope.Smbus? ==> scope.addresses != [] && scope.bus in buses
    ensures ValidateScope(scope, buses).Ok? ==>
      var g := ValidateScope(scope, buses).value;
      && g.perSecond == (if scope.perSecond == 0 then 1
                         else if scope.perSecond < 20_000 then scope.perSecond else 20_000)
      && g.total == (if scope.total == 0 then 1 else if scope.total < 1_000_000 then scope.total else 1_000_000)
      && g.Smbus? == scope.Smbus? && g.AmdSmn? == scope.AmdSmn?
      && (scope.Smbus? ==> g.Smbus? && g.bus == scope.bus && StrictlyIncreasing(g.addresses)
                           && forall a :: a in g.addresses <==> a in scope.addresses)
  {
    if scope.Smbus? {
      var distinct := SortedDistinct(scope.addresses);
      SortedDistinctKeeps(scope.addresses);
      if scope.addresses != [] { assert scope.addresses[0] in distinct; }
      if distinct != [] {
        IncreasingIsSpread(distinct, |distinct| - 1);
        assert distinct[0] in scope.addresses;
      }
    }
  }

  // ------------------------------ whole connections ------------------------------

  /** A connection with its history: when each operation since the last authenticate or renew was
      granted, when that was, and every handle id ever issued. */
  datatype Trace = Trace(s: State, ops: seq<nat>, since: nat, now: nat, busIds: seq<nat>, registerIds: seq<nat>)

  const START := Trace(NEW_CONNECTION, [], 0, 0, [], [])

  ghost function Granted(s: State, req: Request, now: nat): bool {
    !req.Authenticate? && !req.Renew? && s.capability.Some? && Charged(s.capability.value, req, now).1.None?
  }

  ghost function Traced(t: Trace, req: Request, w: World): Trace {
    var (s, r) := Served(t.s, req, w);
    Trace(s,
      if r.Authorized? then [] else if Granted(t.s, req, w.now) then t.ops + [w.now] else t.ops,
      if r.Authorized? then w.now else t.since,
      w.now,
      if r.Opened? && req.OpenBus? then t.busIds + [r.id] else t.busIds,
      if r.Opened? && !req.OpenBus? then t.registerIds + [r.id] else t.registerIds)
  }

  /** Every open handle belongs to the capability in force. */
  ghost predicate HandlesFit(s: State) {
    && (s.capability.None? ==> s.buses == map[] && s.registers == map[])
    && (s.capability.Some? ==>
          var scope := s.capability.value.scope;
          match scope
          case Smbus(bus, _, _, _) => s.registers == map[] && forall h <- s.buses :: s.buses[h] == bus
          case AmdSmn(_, _) => s.buses == map[] && forall h <- s.registers :: s.registers[h] == SmnKind
          case LpcIo(_, _) => s.buses == map[] && forall h <- s.registers :: s.registers[h] == LpcKind)
  }

  ghost predicate HandlesBounded(s: State) {
    && |s.buses| <= MAX_HANDLES_PER_KIND && |s.registers| <= MAX_HANDLES_PER_KIND
    && s.nextBus <= U32_MAX && s.nextRegister <= U32_MAX
    && (forall h <- s.buses :: h <= s.nextBus) && (forall h <- s.registers :: h <= s.nextRegister)
  }

  /** Issued ids only grow, and the counter is at least the last one. */
  ghost predicate IdsFit(ids: seq<nat>, next: nat) {
    StrictlyIncreasing(ids) && forall i :: 0 <= i < |ids| ==> 1 <= ids[i] <= next
  }

  /** The rate window: operations of the current window, those before it, and how far apart any
      operation is from the one two full windows later. */
  ghost predicate RateFits(ops: seq<nat>, windowStarted: nat, windowOperations: nat, perSecond: nat, now: nat) {
    && 1 <= perSecond && windowOperations <= perSecond && windowOperations <= |ops| && windowStarted <= now
    && (forall i, j :: 0 <= i < j < |ops| ==> ops[i] <= ops[j])
    && (forall i :: 0 <= i < |ops| - windowOperations ==> ops[i] <= windowStarted)
    && (forall i :: |ops| - windowOperations <= i < |ops| ==>
          windowStarted <= ops[i] < windowStarted + WINDOW_MS && ops[i] <= now)
    && (forall i :: 0 <= i < |ops| - windowOperations - perSecond ==> ops[i] + WINDOW_MS <= windowStarted)
    && (forall i :: 0 <= i < |ops| - 2 * perSecond ==> ops[i] + WINDOW_MS <= ops[i + 2 * perSecond])
  }

  /** Since the last authenticate or renew: the budget adds up and every grant was in time. */
  ghost predicate BudgetFits(t: Trace) {
    t.s.capability.Some? ==>
      var cap := t.s.capability.value;
      && |t.ops| + cap.remaining == cap.scope.total <= MAX_OPERATIONS_PER_CAPABILITY
      && cap.expires == t.since + CAPABILITY_TTL_MS && t.since <= t.now
      && forall i :: 0 <= i < |t.ops| ==> t.since <= t.ops[i] < cap.expires
  }

  ghost predicate WindowFits(t: Trace) {
    t.s.capability.Some? ==>
      var cap := t.s.capability.value;
      RateFits(t.ops, cap.windowStarted, cap.windowOperations, cap.scope.perSecond, t.now)
  }

  ghost predicate IssuedFit(t: Trace) {
    IdsFit(t.busIds, t.s.nextBus) && IdsFit(t.registerIds, t.s.nextRegister)
  }

  ghost predicate Inv(t: Trace) {
    HandlesFit(t.s) && HandlesBounded(t.s) && BudgetFits(t) && WindowFits(t) && IssuedFit(t)
  }

  lemma AuthenticateKeepsHandles(s: State, token: string, scope: Scope, w: World)
    requires HandlesFit(s) && HandlesBounded(s)
    ensures var s' := Authenticated(s, token, scope, w).0; HandlesFit(s') && HandlesBounded(s')
  {
  }

  lemma AuthenticateKeepsCapability(t: Trace, token: string, scope: Scope, w: World)
    requires BudgetFits(t) && WindowFits(t) && w.now >= t.now
    ensures var t' := Traced(t, Authenticate(token, scope), w); BudgetFits(t') && WindowFits(t')
  {
    ScopeIsGrantedIff(scope, w.buses);
    if t.s.capability.Some? {
      var cap := t.s.capability.value;
      LaterKeepsRate(t.ops, cap.windowStarted, cap.windowOperations, cap.scope.perSecond, t.now, w.now);
    }
  }

  lemma RenewKeepsCapability(t: Trace, capability: string, w: World)
    requires BudgetFits(t) && WindowFits(t) && w.now >= t.now
    ensures var t' := Traced(t, Renew(capability), w); BudgetFits(t') && WindowFits(t')
  {
    if t.s.capability.Some? {
      var cap := t.s.capability.value;
      LaterKeepsRate(t.ops, cap.windowStarted, cap.windowOperations, cap.scope.perSecond, t.now, w.now);
    }
  }

  lemma LaterKeepsRate(ops: seq<nat>, windowStarted: nat, windowOperations: nat, perSecond: nat, before: nat, now: nat)
    requires RateFits(ops, windowStarted, windowOperations, perSecond, before) && before <= now
    ensures RateFits(ops, windowStarted, windowOperations, perSecond, now)
    ensures windowStarted + WINDOW_MS <= now ==> RateFits(ops, now, 0, perSecond, now)
  {
  }

  /** Granting one more operation keeps the rate window fitting. */
  lemma GrantKeepsRate(ops: seq<nat>, windowStarted: nat, windowOperations: nat, perSecond: nat, now: nat)
    requires RateFits(ops, windowStarted, windowOperations, perSecond, now)
    requires windowOperations < perSecond && now < windowStarted + WINDOW_MS
    ensures RateFits(ops + [now], windowStarted, windowOperations + 1, perSecond, now)
  {
  }

  lemma ChargeKeepsWindow(cap: Capability, ops: seq<nat>, before: nat, req: Request, now: nat)
    requires RateFits(ops, cap.windowStarted, cap.windowOperations, cap.scope.perSecond, before) && before <= now
    ensures var (c, refusal) := Charged(cap, req, now);
            RateFits(if refusal.None? then ops + [now] else ops,
                     c.windowStarted, c.windowOperations, c.scope.perSecond, now)
  {
    LaterKeepsRate(ops, cap.windowStarted, cap.windowOperations, cap.scope.perSecond, before, now);
    var (c, refusal) := Charged(cap, req, now);
    if refusal.None? {
      GrantKeepsRate(ops, c.windowStarted, c.windowOperations - 1, c.scope.perSecond, now);
    }
  }

  lemma DispatchKeepsHandles(s: State, req: Request, w: World)
    requires HandlesFit(s) && HandlesBounded(s) && s.capability.Some? && !req.Authenticate? && !req.Renew?
    requires RequestAllowed(s.capability.value.scope, req).None?
    ensures var s' := Dispatched(s, s.capability.value.scope, req, w).0; HandlesFit(s') && HandlesBounded(s')
  {
  }

  lemma DispatchKeepsCapability(s: State, scope: Scope, req: Request, w: World)
    ensures var (s', r) := Dispatched(s, scope, req, w); s'.capability == s.capability && !r.Authorized?
  {
  }

  lemma DispatchKeepsIds(s: State, scope: Scope, req: Request, w: World, busIds: seq<nat>, registerIds: seq<nat>)
    requires IdsFit(busIds, s.nextBus) && IdsFit(registerIds, s.nextRegister)
    ensures var (s', r) := Dispatched(s, scope, req, w);
            && IdsFit(if r.Opened? && req.OpenBus? then busIds + [r.id] else busIds, s'.nextBus)
            && IdsFit(if r.Opened? && !req.OpenBus? then registerIds + [r.id] else registerIds, s'.nextRegister)
  {
  }

  ghost function WithCharge(s: State, req: Request, now: nat): State
    requires s.capability.Some?
  {
    s.(capability := Some(Charged(s.capability.value, req, now).0))
  }

  /** An operation is charged, and only when granted does it reach the dispatcher. */
  lemma OperationSplits(s: State, req: Request, w: World)
    requires !req.Authenticate? && !req.Renew? && s.capability.Some?
    ensures var charged := WithCharge(s, req, w.now);
            var refusal := Charged(s.capability.value, req, w.now).1;
            && charged.buses == s.buses && charged.registers == s.registers
            && charged.nextBus == s.nextBus && charged.nextRegister == s.nextRegister
            && charged.capability.Some? && charged.capability.value.scope == s.capability.value.scope
            && (refusal.None? ==>
                  && RequestAllowed(s.capability.value.scope, req).None?
                  && Served(s, req, w) == Dispatched(charged, s.capability.value.scope, req, w))
            && (refusal.Some? ==> Served(s, req, w) == (charged, Refused(refusal.value)))
  {
  }

  lemma OperateKeepsHandles(s: State, req: Request, w: World)
    requires HandlesFit(s) && HandlesBounded(s) && s.capability.Some? && !req.Authenticate? && !req.Renew?
    ensures HandlesFit(Served(s, req, w).0) && HandlesBounded(Served(s, req, w).0)
  {
    OperationSplits(s, req, w);
    var charged := WithCharge(s, req, w.now);
    assert HandlesFit(charged) && HandlesBounded(charged);
    if Charged(s.capability.value, req, w.now).1.None? {
      DispatchKeepsHandles(charged, req, w);
    }
  }

  lemma ServeKeepsHandles(s: State, req: Request, w: World)
    requires HandlesFit(s) && HandlesBounded(s)
    ensures HandlesFit(Served(s, req, w).0) && HandlesBounded(Served(s, req, w).0)
  {
    if req.Authenticate? {
      AuthenticateKeepsHandles(s, req.token, req.scope, w);
    } else if !req.Renew? && s.capability.Some? {
      OperateKeepsHandles(s, req, w);
    }
  }

  lemma OperateShape(t: Trace, req: Request, w: World)
    requires t.s.capability.Some? && !req.Authenticate? && !req.Renew?
    ensures var t' := Traced(t, req, w);
            var (cap, refusal) := Charged(t.s.capability.value, req, w.now);
            && t'.s.capability == Some(cap) && t'.since == t.since && t'.now == w.now
            && t'.ops == if refusal.None? then t.ops + [w.now] else t.ops
  {
    OperationSplits(t.s, req, w);
    DispatchKeepsCapability(WithCharge(t.s, req, w.now), t.s.capability.value.scope, req, w);
  }

  lemma OperateKeepsBudget(t: Trace, req: Request, w: World)
    requires BudgetFits(t) && w.now >= t.now && t.s.capability.Some? && !req.Authenticate? && !req.Renew?
    ensures BudgetFits(Traced(t, req, w))
  {
    OperateShape(t, req, w);
  }

  lemma OperateKeepsWindow(t: Trace, req: Request, w: World)
    requires WindowFits(t) && w.now >= t.now && t.s.capability.Some? && !req.Authenticate? && !req.Renew?
    ensures WindowFits(Traced(t, req, w))
  {
    OperateShape(t, req, w);
    ChargeKeepsWindow(t.s.capability.value, t.ops, t.now, req, w.now);
  }

  lemma ServeKeepsCapability(t: Trace, req: Request, w: World)
    requires BudgetFits(t) && WindowFits(t) && w.now >= t.now
    ensures BudgetFits(Traced(t, req, w)) && WindowFits(Traced(t, req, w))
  {
    if req.Authenticate? {
      AuthenticateKeepsCapability(t, req.token, req.scope, w);
    } else if req.Renew? {
      RenewKeepsCapability(t, req.capability, w);
    } else if t.s.capability.Some? {
      OperateKeepsBudget(t, req, w);
      OperateKeepsWindow(t, req, w);
    }
  }

  lemma OperateKeepsIds(t: Trace, req: Request, w: World)
    requires IssuedFit(t) && t.s.capability.Some? && !req.Authenticate? && !req.Renew?
    ensures IssuedFit(Traced(t, req, w))
  {
    var scope := t.s.capability.value.scope;
    OperationSplits(t.s, req, w);
    DispatchKeepsIds(WithCharge(t.s, req, w.now), scope, req, w, t.busIds, t.registerIds);
  }

  lemma NothingOpens(s: State, req: Request, w: World)
    requires req.Authenticate? || req.Renew? || s.capability.None?
    ensures var (s', r) := Served(s, req, w); !r.Opened? && s'.nextBus == s.nextBus && s'.nextRegister == s.nextRegister
  {
  }

  lemma ServeKeepsIds(t: Trace, req: Request, w: World)
    requires IssuedFit(t)
    ensures IssuedFit(Traced(t, req, w))
  {
    if !req.Authenticate? && !req.Renew? && t.s.capability.Some? {
      OperateKeepsIds(t, req, w);
    } else {
      NothingOpens(t.s, req, w);
    }
  }

  lemma ServeKeeps(t: Trace, req: Request, w: World)
    requires Inv(t) && w.now >= t.now
    ensures Inv(Traced(t, req, w))
  {
    ServeKeepsHandles(t.s, req, w);
    ServeKeepsCapability(t, req, w);
    ServeKeepsIds(t, req, w);
  }

  type Round = (Trace, (Request, World)) -> Trace

  ghost function Tracing(): Round {
    (t, r: (Request, World)) => Traced(t, r.0, r.1)
  }

  ghost function Iterated(round: Round, reqs: seq<(Request, World)>, n: nat): Trace
    requires n <= |reqs|
  {
    if n == 0 then START else round(Iterated(round, reqs, n - 1), reqs[n - 1])
  }

  /** The connection after its first `n` requests. */
  ghost function After(reqs: seq<(Request, World)>, n: nat): Trace
    requires n <= |reqs|
  {
    Iterated(Tracing(), reqs, n)
  }

  /** The clock never runs backwards. */
  ghost predicate Clocked(reqs: seq<(Request, World)>) {
    forall i, j :: 0 <= i < j < |reqs| ==> reqs[i].1.now <= reqs[j].1.now
  }

  lemma {:induction false} ConnectionKeeps(reqs: seq<(Request, World)>, n: nat)
    requires Clocked(reqs) && n <= |reqs|
    ensures Inv(After(reqs, n)) && (n > 0 ==> After(reqs, n).now == reqs[n - 1].1.now)
  {
    if n > 0 {
      ConnectionKeeps(reqs, n - 1);
      ServeKeeps(After(reqs, n - 1), reqs[n - 1].0, reqs[n - 1].1);
    }
  }

  /** What a capability lets reach the hardware. */
  ghost predicate InScope(scope: Scope, effect: Effect) {
    match effect
    case Transferred(bus, addr, transfer) =>
      && scope.Smbus? && bus == scope.bus && addr in scope.addresses
      && (transfer.WriteBlockData? ==> 1 <= |transfer.data| <= 32)
    case Queried(bus) => scope.Smbus? && bus == scope.bus
    case SmnWasRead(_) => scope.AmdSmn?
    case LpcDone(op) => scope.LpcIo? && (op.SelectSlot? ==> op.slot <= 1)
  }

  /** The requests a scope covers. */
  ghost predicate Covers(scope: Scope, req: Request) {
    || (scope.Smbus? && req.OpenBus? && req.info == scope.bus)
    || (scope.Smbus? && req.SupportsBlockWrite?)
    || (scope.Smbus? && req.BusTransfer? && req.addr in scope.addresses
        && (req.transfer.WriteBlockData? ==> 1 <= |req.transfer.data| <= 32))
    || (scope.AmdSmn? && (req.OpenAmdSmn? || req.ReadSmn?))
    || (scope.LpcIo? && (req.OpenLpcIo? || (req.Lpc? && (req.op.SelectSlot? ==> req.op.slot <= 1))))
  }

  /** The capability is in force, covers the operation, has budget left and has rate left in the window,
      or the window is over. */
  ghost predicate Chargeable(cap: Capability, req: Request, now: nat) {
    && now < cap.expires && Covers(cap.scope, req) && cap.remaining > 0
    && (cap.windowOperations < cap.scope.perSecond || now >= cap.windowStarted + 1_000)
  }

  /** An operation is charged exactly when it is chargeable; otherwise the refusal names the first thing
      that is missing. */
  lemma ChargedIff(cap: Capability, req: Request, now: nat)
    requires cap.scope.perSecond >= 1
    ensures Charged(cap, req, now).1.None? <==> Chargeable(cap, req, now)
    ensures var refusal := Charged(cap, req, now).1;
            && (refusal == Some(CapabilityExpired) <==> cap.expires <= now)
            && (refusal == Some(BudgetExhausted) <==> now < cap.expires && Covers(cap.scope, req) && cap.remaining == 0)
            && (refusal == Some(RateExceeded) <==>
                  now < cap.expires && Covers(cap.scope, req) && cap.remaining > 0 && !Chargeable(cap, req, now))
    ensures var (c, refusal) := Charged(cap, req, now);
            && c.id == cap.id && c.scope == cap.scope && c.expires == cap.expires
            && c.remaining == cap.remaining - if refusal.None? then 1 else 0
  {
  }

  /** The dispatcher's own checks, which repeat what the capability check has already settled. */
  predicate Redundant(why: Refusal) {
    || why.OpenUnderAnotherCapability? || why.BusOutsideCapability? || why.HandleOfAnotherKind?
    || why.BadSlotAtDispatch? || why.NotAnOperation?
  }

  lemma DispatchStaysInScope(s: State, scope: Scope, req: Request, w: World)
    requires s.capability.Some? && scope == s.capability.value.scope && HandlesFit(s)
    requires RequestAllowed(scope, req).None?
    ensures var r := Dispatched(s, scope, req, w).1;
            && (r.Performed? ==> InScope(scope, r.effect))
            && (r.Refused? ==> !Redundant(r.reason))
  {
  }

  lemma RefusalsAreLive(s: State, req: Request, w: World)
    requires req.Authenticate? || req.Renew? || s.capability.None? || Charged(s.capability.value, req, w.now).1.Some?
    ensures var r := Served(s, req, w).1; !r.Performed? && (r.Refused? ==> !Redundant(r.reason))
  {
  }

  /** In every reachable state whatever reaches the hardware is what the capability in force
      scopes: its bus and one of its addresses, or its kind of register module. The dispatcher's
      own scope checks can never be what refuses a request. */
  lemma {:induction false} EffectsStayInScope(reqs: seq<(Request, World)>, n: nat)
    requires Clocked(reqs) && n < |reqs|
    ensures var (s, r) := Served(After(reqs, n).s, reqs[n].0, reqs[n].1);
            && (r.Performed? ==> s.capability.Some? && InScope(s.capability.value.scope, r.effect))
            && (r.Refused? ==> !Redundant(r.reason))
  {
    ConnectionKeeps(reqs, n);
    ServedStaysInScope(After(reqs, n).s, reqs[n].0, reqs[n].1);
  }

  lemma ServedStaysInScope(s: State, req: Request, w: World)
    requires HandlesFit(s)
    ensures var (s', r) := Served(s, req, w);
            && (r.Performed? ==> s'.capability.Some? && InScope(s'.capability.value.scope, r.effect))
            && (r.Refused? ==> !Redundant(r.reason))
  {
    if req.Authenticate? || req.Renew? || s.capability.None? || Charged(s.capability.value, req, w.now).1.Some? {
      RefusalsAreLive(s, req, w);
    } else {
      var charged := WithCharge(s, req, w.now);
      DispatchStaysInScope(charged, charged.capability.value.scope, req, w);
      DispatchKeepsCapability(charged, charged.capability.value.scope, req, w);
    }
  }

  /** Opening takes the next id if fewer than 64 handles are open and ids are left, and only records a
      handle that the device layer could open. */
  ghost predicate OpensNext<H>(
      open: map<nat, H>, next: nat, opens: bool, handle: H, open': map<nat, H>, next': nat, r: Response) {
    if |open| >= 64 || next >= 0xFFFF_FFFF then r == Refused(NoHandleLeft) && open' == open && next' == next
    else if !opens then r == Refused(OpenFailed) && open' == open && next' == next + 1
    else r == Opened(next + 1) && open' == open[next + 1 := handle] && next' == next + 1
  }

  ghost predicate SameBuses(s: State, s': State) {
    s'.buses == s.buses && s'.nextBus == s.nextBus
  }

  ghost predicate SameRegisters(s: State, s': State) {
    s'.registers == s.registers && s'.nextRegister == s.nextRegister
  }

  /** What an operation that is granted does: exactly what it asks for, on the scoped bus or the module
      its handle stands for, if that handle is open; and it opens and closes nothing else. */
  ghost predicate DoesWhatItAsks(s: State, scope: Scope, req: Request, w: World, s': State, r: Response) {
    match req
    case BusTransfer(h, addr, transfer) =>
      && scope.Smbus? && SameBuses(s, s') && SameRegisters(s, s')
      && r == if h in s.buses then Performed(Transferred(scope.bus, addr, transfer)) else Refused(UnknownBus)
    case SupportsBlockWrite(h) =>
      && scope.Smbus? && SameBuses(s, s') && SameRegisters(s, s')
      && r == if h in s.buses then Performed(Queried(scope.bus)) else Refused(UnknownBus)
    case ReadSmn(h, offset) =>
      && SameBuses(s, s') && SameRegisters(s, s')
      && r == if h in s.registers then Performed(SmnWasRead(offset)) else Refused(UnknownRegisterHandle)
    case Lpc(h, op) =>
      && SameBuses(s, s') && SameRegisters(s, s')
      && r == if h in s.registers then Performed(LpcDone(op)) else Refused(UnknownRegisterHandle)
    case OpenBus(info) =>
      OpensNext(s.buses, s.nextBus, w.opens, info, s'.buses, s'.nextBus, r) && SameRegisters(s, s')
    case OpenAmdSmn =>
      OpensNext(s.registers, s.nextRegister, w.opens, SmnKind, s'.registers, s'.nextRegister, r) && SameBuses(s, s')
    case OpenLpcIo =>
      OpensNext(s.registers, s.nextRegister, w.opens, LpcKind, s'.registers, s'.nextRegister, r) && SameBuses(s, s')
    case Authenticate(_, _) => false
    case Renew(_) => false
  }

  lemma DispatchDoesWhatItAsks(s: State, req: Request, w: World)
    requires s.capability.Some? && HandlesFit(s) && Covers(s.capability.value.scope, req)
    ensures var scope := s.capability.value.scope;
            var (s', r) := Dispatched(s, scope, req, w);
            DoesWhatItAsks(s, scope, req, w, s', r)
  {
  }

  /** On every run an operation that the capability in force can be charged for does what it asks, and any
      other does nothing at all but, at most, lose a window that is over. */
  lemma {:induction false} GrantedOperationDoesWhatItAsks(reqs: seq<(Request, World)>, n: nat)
    requires Clocked(reqs) && n < |reqs| && !reqs[n].0.Authenticate? && !reqs[n].0.Renew?
    ensures var s := After(reqs, n).s;
            var (s', r) := Served(s, reqs[n].0, reqs[n].1);
            if s.capability.Some? && Chargeable(s.capability.value, reqs[n].0, reqs[n].1.now) then
              && DoesWhatItAsks(s, s.capability.value.scope, reqs[n].0, reqs[n].1, s', r)
              && s'.capability.Some? && s'.capability.value.remaining == s.capability.value.remaining - 1
            else
              r.Refused? && SameBuses(s, s') && SameRegisters(s, s') && s'.capability.Some? == s.capability.Some?
              && (s.capability.Some? ==> s'.capability.value.remaining == s.capability.value.remaining)
  {
    ConnectionKeeps(reqs, n);
    OperationIsServed(After(reqs, n), reqs[n].0, reqs[n].1);
  }

  lemma OperationIsServed(t: Trace, req: Request, w: World)
    requires HandlesFit(t.s) && WindowFits(t) && !req.Authenticate? && !req.Renew?
    ensures var s := t.s;
            var (s', r) := Served(s, req, w);
            if s.capability.Some? && Chargeable(s.capability.value, req, w.now) then
              && DoesWhatItAsks(s, s.capability.value.scope, req, w, s', r)
              && s'.capability.Some? && s'.capability.value.remaining == s.capability.value.remaining - 1
            else
              r.Refused? && SameBuses(s, s') && SameRegisters(s, s') && s'.capability.Some? == s.capability.Some?
              && (s.capability.Some? ==> s'.capability.value.remaining == s.capability.value.remaining)
  {
    if t.s.capability.Some? {
      var charged := WithCharge(t.s, req, w.now);
      ChargedIff(t.s.capability.value, req, w.now);
      OperationSplits(t.s, req, w);
      if Chargeable(t.s.capability.value, req, w.now) {
        DispatchDoesWhatItAsks(charged, req, w);
        DispatchKeepsCapability(charged, charged.capability.value.scope, req, w);
        SameHandles(t.s, charged, charged.capability.value.scope, req, w);
      }
    }
  }

  lemma SameHandles(s: State, charged: State, scope: Scope, req: Request, w: World)
    requires charged == s.(capability := charged.capability)
    requires var (s', r) := Dispatched(charged, scope, req, w); DoesWhatItAsks(charged, scope, req, w, s', r)
    ensures var (s', r) := Dispatched(charged, scope, req, w); DoesWhatItAsks(s, scope, req, w, s', r)
  {
  }

  /** When a capability is granted, and what is left open under it. Only the bootstrap secret and a
      scope that can be granted authenticate; only the capability itself, before it expires, renews,
      under the scope it had. */
  ghost predicate Grantable(s: State, req: Request, w: World) {
    w.token.Some? &&
      if req.Authenticate? then
        req.token == w.secret && (req.scope.Smbus? ==> req.scope.addresses != [] && req.scope.bus in w.buses)
      else
        && req.Renew? && s.capability.Some?
        && req.capability == s.capability.value.id && w.now < s.capability.value.expires
  }

  lemma CapabilityIsGrantedIff(s: State, req: Request, w: World)
    ensures var (s', r) := Served(s, req, w);
            && (r.Authorized? <==> Grantable(s, req, w))
            && (r.Authorized? ==>
                  && s'.capability.Some? && r.capability == s'.capability.value.id == w.token.value
                  && s'.capability.value.expires == w.now + 60_000
                  && s'.capability.value.remaining == s'.capability.value.scope.total
                  && (req.Authenticate? ==> s'.buses == map[] && s'.registers == map[]
                                            && ValidateScope(req.scope, w.buses) == Ok(s'.capability.value.scope))
                  && (req.Renew? ==> s'.buses == s.buses && s'.registers == s.registers
                                     && s'.capability.value.scope == s.capability.value.scope))
            && (!r.Authorized? ==> s'.capability.Some? == s.capability.Some?
                                   && (s.capability.Some? ==>
                                         && s'.capability.value.id == s.capability.value.id
                                         && s'.capability.value.expires == s.capability.value.expires))
  {
    if req.Authenticate? {
      ScopeIsGrantedIff(req.scope, w.buses);
    } else if !req.Renew? && s.capability.Some? {
      OperationSplits(s, req, w);
      var charged := WithCharge(s, req, w.now);
      DispatchKeepsCapability(charged, charged.capability.value.scope, req, w);
    }
  }

  /** A capability that is not granted changes nothing, and the refusal names the first thing that is wrong. */
  lemma UngrantedTellsWhy(s: State, req: Request, w: World)
    requires req.Authenticate? || req.Renew?
    ensures var (s', r) := Served(s, req, w);
            && (!r.Authorized? ==> s' == s && r.Refused?)
            && (r == Refused(BadBootstrapToken) <==> req.Authenticate? && req.token != w.secret)
            && (r == Refused(NotAuthenticated) <==> req.Renew? && s.capability.None?)
            && (r == Refused(BadCapability) <==>
                  req.Renew? && s.capability.Some? && req.capability != s.capability.value.id)
            && (r == Refused(CapabilityExpired) <==>
                  req.Renew? && s.capability.Some? && req.capability == s.capability.value.id
                  && s.capability.value.expires <= w.now)
            && (r == Refused(NoRandomness) <==> w.token.None? && Grantable(s, req, w.(token := Some(""))))
  {
    if req.Authenticate? { ScopeIsGrantedIff(req.scope, w.buses); }
  }

  /** A request that leaves this state as it is. */
  ghost predicate Idle(round: Round, r: (Request, World), s: State) {
    forall t: Trace :: t.s == s ==> round(t, r).s == s
  }

  lemma {:induction false} IteratedStays(round: Round, reqs: seq<(Request, World)>, i: nat, j: nat, s: State)
    requires i <= j <= |reqs| && Iterated(round, reqs, i).s == s
    requires forall k :: i <= k < j ==> Idle(round, reqs[k], s)
    ensures Iterated(round, reqs, j).s == s
  {
    if i < j {
      IteratedStays(round, reqs, i, j - 1, s);
      assert Idle(round, reqs[j - 1], s);
    }
  }

  lemma ExpiredIdles(s: State, r: (Request, World))
    requires s.capability.Some? && s.capability.value.expires <= r.1.now && !r.0.Authenticate?
    ensures Idle(Tracing(), r, s)
  {
    ExpiredServesNothing(s, r.0, r.1);
  }

  /** Once its capability has expired a connection is dead until it authenticates again: nothing is
      opened, performed, granted or changed. */
  lemma {:induction false} ExpiredConnectionIsDead(reqs: seq<(Request, World)>, i: nat, j: nat)
    requires Clocked(reqs) && i <= j < |reqs| && After(reqs, i).s.capability.Some?
    requires After(reqs, i).s.capability.value.expires <= reqs[i].1.now
    requires forall k :: i <= k <= j ==> !reqs[k].0.Authenticate?
    ensures After(reqs, j).s == After(reqs, i).s
    ensures Served(After(reqs, j).s, reqs[j].0, reqs[j].1).1.Refused?
  {
    var s := After(reqs, i).s;
    forall k | i <= k < j ensures Idle(Tracing(), reqs[k], s) {
      ExpiredIdles(s, reqs[k]);
    }
    IteratedStays(Tracing(), reqs, i, j, s);
    ExpiredServesNothing(s, reqs[j].0, reqs[j].1);
  }

  lemma ExpiredServesNothing(s: State, req: Request, w: World)
    requires s.capability.Some? && s.capability.value.expires <= w.now && !req.Authenticate?
    ensures Served(s, req, w).0 == s && Served(s, req, w).1.Refused?
  {
  }

  /** A handle just opened is none that is still open, and none ever issued on this connection. */
  lemma {:induction false} OpenedHandleIsNew(reqs: seq<(Request, World)>, n: nat)
    requires Clocked(reqs) && n < |reqs|
    ensures var t := After(reqs, n);
            var r := Served(t.s, reqs[n].0, reqs[n].1).1;
            r.Opened? ==> if reqs[n].0.OpenBus? then r.id !in t.s.buses && r.id !in t.busIds
                          else r.id !in t.s.registers && r.id !in t.registerIds
  {
    ConnectionKeeps(reqs, n);
    OpenedIsNew(After(reqs, n), reqs[n].0, reqs[n].1);
  }

  lemma OpenedIsNew(t: Trace, req: Request, w: World)
    requires HandlesBounded(t.s) && IssuedFit(t)
    ensures var r := Served(t.s, req, w).1;
            r.Opened? ==> if req.OpenBus? then r.id !in t.s.buses && r.id !in t.busIds
                          else r.id !in t.s.registers && r.id !in t.registerIds
  {
    if !req.Authenticate? && !req.Renew? && t.s.capability.Some? {
      OperationSplits(t.s, req, w);
      DispatchedIsNew(WithCharge(t.s, req, w.now), t.s.capability.value.scope, req, w);
    } else {
      NothingOpens(t.s, req, w);
    }
  }

  lemma DispatchedIsNew(s: State, scope: Scope, req: Request, w: World)
    ensures var r := Dispatched(s, scope, req, w).1;
            r.Opened? ==> r.id == 1 + if req.OpenBus? then s.nextBus else s.nextRegister
  {
  }

  /** Handle ids are issued in strictly increasing order for the life of the connection, so
      re-authenticating, which closes every handle, never brings an old id back. */
  lemma {:induction false} HandleIdsAreNeverReissued(reqs: seq<(Request, World)>, n: nat)
    requires Clocked(reqs) && n <= |reqs|
    ensures StrictlyIncreasing(After(reqs, n).busIds) && StrictlyIncreasing(After(reqs, n).registerIds)
    ensures |After(reqs, n).s.buses| <= 64 && |After(reqs, n).s.registers| <= 64
    ensures After(reqs, n).s.nextBus <= 0xFFFF_FFFF && After(reqs, n).s.nextRegister <= 0xFFFF_FFFF
  {
    ConnectionKeeps(reqs, n);
  }

  /** How many operations were granted in the second that begins at `from`. */
  function GrantedWithin(ops: seq<nat>, from: nat): nat {
    if ops == [] then 0
    else GrantedWithin(ops[..|ops| - 1], from) + if from <= ops[|ops| - 1] < from + 1_000 then 1 else 0
  }

  lemma {:induction false} SpreadBoundsGrants(ops: seq<nat>, from: nat, least: nat, most: nat)
    requires forall i, j :: 0 <= i < j < |ops| ==> ops[i] <= ops[j]
    requires forall i :: 0 <= i < |ops| - most ==> ops[i] + WINDOW_MS <= ops[i + most]
    requires least <= |ops|
    requires forall i :: 0 <= i < least ==> ops[i] < from
    requires least < |ops| ==> from <= ops[least]
    ensures GrantedWithin(ops, from) <= most
    ensures GrantedWithin(ops, from) <= |ops| - least
    ensures GrantedWithin(ops, from) == |ops| - least || (ops != [] && from + WINDOW_MS <= ops[|ops| - 1])
  {
    if ops != [] {
      var front := ops[..|ops| - 1];
      if least == |ops| {
        SpreadBoundsGrants(front, from, least - 1, most);
      } else {
        SpreadBoundsGrants(front, from, least, most);
      }
    }
  }

  lemma {:induction false} FirstFrom(ops: seq<nat>, from: nat) returns (least: nat)
    requires forall i, j :: 0 <= i < j < |ops| ==> ops[i] <= ops[j]
    ensures least <= |ops| && (forall i :: 0 <= i < least ==> ops[i] < from) && (least < |ops| ==> from <= ops[least])
  {
    least := 0;
    while least < |ops| && ops[least] < from
      invariant least <= |ops| && forall i :: 0 <= i < least ==> ops[i] < from
    {
      least := least + 1;
    }
  }

  /** Since the last authenticate or renew: granted plus remaining is the clamped total, every
      grant came within the time to live, and no second holds more than twice the rate. */
  lemma {:induction false} OperationsAreAccounted(reqs: seq<(Request, World)>, n: nat, from: nat)
    requires Clocked(reqs) && n <= |reqs| && After(reqs, n).s.capability.Some?
    ensures var t := After(reqs, n);
            var cap := t.s.capability.value;
            && |t.ops| + cap.remaining == cap.scope.total <= 1_000_000
            && (forall i :: 0 <= i < |t.ops| ==> t.since <= t.ops[i] < t.since + 60_000)
            && GrantedWithin(t.ops, from) <= 2 * cap.scope.perSecond
  {
    ConnectionKeeps(reqs, n);
    var t := After(reqs, n);
    AccountedFor(t, from);
  }

  lemma AccountedFor(t: Trace, from: nat)
    requires BudgetFits(t) && WindowFits(t) && t.s.capability.Some?
    ensures var cap := t.s.capability.value;
            && |t.ops| + cap.remaining == cap.scope.total <= MAX_OPERATIONS_PER_CAPABILITY
            && (forall i :: 0 <= i < |t.ops| ==> t.since <= t.ops[i] < t.since + CAPABILITY_TTL_MS)
            && GrantedWithin(t.ops, from) <= 2 * cap.scope.perSecond
  {
    var least := FirstFrom(t.ops, from);
    SpreadBoundsGrants(t.ops, from, least, 2 * t.s.capability.value.scope.perSecond);
  }

  lemma {:induction false} GrantedWithinAll(ops: seq<nat>, from: nat)
    ensures GrantedWithin(ops, from) <= |ops|
    ensures (forall i :: 0 <= i < |ops| ==> from <= ops[i] < from + WINDOW_MS) ==> GrantedWithin(ops, from) == |ops|
  {
    if ops != [] {
      GrantedWithinAll(ops[..|ops| - 1], from);
    }
  }
}
