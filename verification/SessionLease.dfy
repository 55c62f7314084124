/**
 The single in-process core session of a desktop host, as values. Any number of runtimes, each with
 any number of controllers, compete for one core. The lease on it is recorded three times: in the
 process state, in the runtime's `active` handle and in the controller's running flag. What follows
 it is part of the state as well. Every operation is one critical section of the process lock.
 */
module SessionLease {
  import opened Wrappers
  import Text

  /** Handles are uint64 and zero is never issued. */
  const HANDLE_LIMIT := 0x1_0000_0000_0000_0000

  type Handle = h: nat | h < HANDLE_LIMIT
  type RuntimeId = nat
  type ControllerId = nat
  /** Numbers the connection logs, one per core instance that was created for a session. */
  type SessionId = nat

  datatype Controller = Controller(running: bool, connLog: Option<SessionId>)

  const IDLE := Controller(false, None)

  datatype RuntimeState = RuntimeState(
    controllers: map<Handle, ControllerId>, nextHandle: Handle, active: Handle, assetDir: string)

  /** What the process shares; `R` is how a runtime is referred to. */
  datatype Process<R> = Process(
    assetOwner: Option<R>,
    assetDirectory: string,
    activeRuntime: Option<R>,
    activeHandle: Handle,
    tunFd: Option<int>,
    v2rayTunFd: Option<int>,
    activeLog: Option<SessionId>,
    nextSession: SessionId)

  /** All that a call on a known handle reads and writes. */
  datatype Seat<R> = Seat(process: Process<R>, active: Handle, controller: Controller)

  datatype World = World(
    process: Process<RuntimeId>,
    runtimes: map<RuntimeId, RuntimeState>,
    controllers: map<ControllerId, Controller>,
    nextController: ControllerId)

  /** How the opaque part of a core start ends. */
  datatype StartOutcome = ConfigRejected | NewFailed | StartFailed | Started

  datatype LeaseError =
    | BadDirectory
    | AssetsInUse(holder: Handle)
    | BlankConfiguration
    | NegativeDescriptor
    | AssetsNotInitialized
    | ControllerNotFound
    | AnotherControllerActive(holder: Handle)
    | AlreadyRunning
    | StartRejected(reason: StartOutcome)
    | CloseFailed

  type Reply = Result<bool, LeaseError>

  // ---------- CoreController: the process and one controller ----------

  function PublishTunFd<R>(p: Process<R>, fd: int): Process<R> {
    if fd > 0 then p.(tunFd := Some(fd), v2rayTunFd := Some(fd)) else ClearTunFd(p)
  }

  function ClearTunFd<R>(p: Process<R>): Process<R> {
    p.(tunFd := None, v2rayTunFd := None)
  }

  function InstallLog<R>(p: Process<R>): Process<R> {
    p.(activeLog := Some(p.nextSession), nextSession := p.nextSession + 1)
  }

  /** Forget the active log, but only when it belongs to the given session. */
  function ClearLog<R>(p: Process<R>, connLog: Option<SessionId>): Process<R> {
    if p.activeLog.Some? && p.activeLog == connLog then p.(activeLog := None) else p
  }

  function StartLoop<R>(p: Process<R>, c: Controller, fd: int, outcome: StartOutcome): (Process<R>, Controller, bool) {
    if c.running then (p, c, false)
    else
      match outcome
      case ConfigRejected => (p, c, false)
      case NewFailed => (ClearTunFd(PublishTunFd(p, fd)), c, false)
      case StartFailed =>
        (ClearTunFd(ClearLog(InstallLog(PublishTunFd(p, fd)), Some(p.nextSession))), c, false)
      case Started =>
        (InstallLog(PublishTunFd(p, fd)), Controller(true, Some(p.nextSession)), true)
  }

  function StopLoop<R>(p: Process<R>, c: Controller): (Process<R>, Controller) {
    if c.running then (ClearTunFd(ClearLog(p, c.connLog)), IDLE) else (p, c)
  }

  /** A controller starts exactly when it is not running and its core starts; a running one is left alone. */
  lemma StartLoopSucceedsExactlyWhen<R>(p: Process<R>, c: Controller, fd: int, outcome: StartOutcome)
    ensures var (q, d, ok) := StartLoop(p, c, fd, outcome);
      && (ok <==> !c.running && outcome == Started)
      && (c.running ==> q == p && d == c)
      && (ok ==> d.running && d.connLog == Some(p.nextSession) && q.activeLog == d.connLog)
      && (ok ==> q.tunFd == q.v2rayTunFd == if fd > 0 then Some(fd) else None)
  {
  }

  /** Stopping gives the controller up, with its log if that is the active one, and clears the descriptor. */
  lemma StopLoopGivesUp<R>(p: Process<R>, c: Controller)
    ensures var (q, d) := StopLoop(p, c);
      && (!c.running ==> q == p && d == c)
      && (c.running ==> d == Controller(false, None) && q.tunFd.None? && q.v2rayTunFd.None?)
      && (c.running && p.activeLog.Some? ==> q.activeLog == if p.activeLog == c.connLog then None else p.activeLog)
  {
  }

  // ---------- Runtime: calls on a known handle ----------

  function Release<R(==)>(s: Seat<R>, me: R, h: Handle): Seat<R> {
    var active := if s.active == h then 0 else s.active;
    if s.process.activeRuntime == Some(me) && s.process.activeHandle == h then
      s.(active := active, process := s.process.(activeRuntime := None, activeHandle := 0))
    else
      s.(active := active)
  }

  function TakeLease<R>(s: Seat<R>, me: R, h: Handle): Seat<R> {
    s.(active := h, process := s.process.(activeRuntime := Some(me), activeHandle := h))
  }

  function StartSeat<R(==)>(s: Seat<R>, me: R, h: Handle, fd: int, outcome: StartOutcome): (Seat<R>, Reply) {
    if s.process.activeRuntime.Some? && (s.process.activeRuntime != Some(me) || s.process.activeHandle != h) then
      (s, Failure(AnotherControllerActive(s.process.activeHandle)))
    else if s.active != 0 && s.active != h then
      (s, Failure(AnotherControllerActive(s.active)))
    else if s.controller.running then (s, Failure(AlreadyRunning))
    else
      var (p, c, ok) := StartLoop(s.process, s.controller, fd, outcome);
      var after := s.(process := p, controller := c);
      if ok then (TakeLease(after, me, h), Success(true)) else (after, Failure(StartRejected(outcome)))
  }

  /** In whatever state a seat is, a start is refused while the process or the runtime names another handle. */
  lemma StartIsRefusedToOthers<R>(s: Seat<R>, me: R, h: Handle, fd: int, outcome: StartOutcome)
    ensures s.process.activeRuntime.Some? && s.process.activeRuntime != Some(me) ==>
      StartSeat(s, me, h, fd, outcome) == (s, Failure(AnotherControllerActive(s.process.activeHandle)))
    ensures s.process.activeRuntime.Some? && s.process.activeHandle != h ==>
      StartSeat(s, me, h, fd, outcome) == (s, Failure(AnotherControllerActive(s.process.activeHandle)))
    ensures s.process.activeRuntime.None? && s.active != 0 && s.active != h ==>
      StartSeat(s, me, h, fd, outcome) == (s, Failure(AnotherControllerActive(s.active)))
  {
  }

  /** The lease is released even when closing the core reports an error. */
  function StopSeat<R(==)>(s: Seat<R>, me: R, h: Handle, closeOk: bool): (Seat<R>, Reply) {
    var (p, c) := StopLoop(s.process, s.controller);
    (Release(s.(process := p, controller := c), me, h),
     if s.controller.running && !closeOk then Failure(CloseFailed) else Success(true))
  }

  /** A running controller is stopped first; its lease is released on the failing and on the clean path. */
  function DestroySeat<R(==)>(s: Seat<R>, me: R, h: Handle, closeOk: bool): (Seat<R>, Reply) {
    if s.controller.running then
      var (p, c) := StopLoop(s.process, s.controller);
      var stopped := s.(process := p, controller := c);
      if !closeOk then (Release(stopped, me, h), Failure(CloseFailed)) else (Release(stopped, me, h), Success(true))
    else (Release(s, me, h), Success(true))
  }

  function IsRunningSeat<R(==)>(s: Seat<R>, me: R, h: Handle): (Seat<R>, Reply) {
    (if s.controller.running then s else Release(s, me, h), Success(s.controller.running))
  }

  // ---------- Calls on the whole world ----------

  predicate Known(w: World, r: RuntimeId, h: Handle)
    requires r in w.runtimes
  {
    h != 0 && h in w.runtimes[r].controllers && w.runtimes[r].controllers[h] in w.controllers
  }

  function ControllerOf(w: World, r: RuntimeId, h: Handle): ControllerId
    requires r in w.runtimes && Known(w, r, h)
  {
    w.runtimes[r].controllers[h]
  }

  function SeatOf(w: World, r: RuntimeId, h: Handle): Seat<RuntimeId>
    requires r in w.runtimes && Known(w, r, h)
  {
    Seat(w.process, w.runtimes[r].active, w.controllers[ControllerOf(w, r, h)])
  }

  /** The world after a call on handle `h` of runtime `r` left its seat as `s`. */
  function WithSeat(w: World, r: RuntimeId, h: Handle, s: Seat<RuntimeId>): World
    requires r in w.runtimes && Known(w, r, h)
  {
    w.(process := s.process,
       runtimes := w.runtimes[r := w.runtimes[r].(active := s.active)],
       controllers := w.controllers[ControllerOf(w, r, h) := s.controller])
  }

  function InitializeAssets(w: World, r: RuntimeId, directory: Option<string>): (World, Reply)
    requires r in w.runtimes
  {
    if directory.None? || directory.value == "" then (w, Failure(BadDirectory))
    else if w.process.activeRuntime.Some? then (w, Failure(AssetsInUse(w.process.activeHandle)))
    else
      (w.(runtimes := w.runtimes[r := w.runtimes[r].(assetDir := directory.value)],
          process := w.process.(assetOwner := Some(r), assetDirectory := directory.value)), Success(true))
  }

  /** The counter wraps to zero, and zero is skipped. */
  function NextHandle(h: Handle): (next: Handle)
    ensures next != 0
  {
    var next := (h + 1) % HANDLE_LIMIT;
    if next == 0 then 1 else next
  }

  function CreateController(w: World, r: RuntimeId): World
    requires r in w.runtimes
  {
    var s := w.runtimes[r];
    var h := NextHandle(s.nextHandle);
    w.(runtimes := w.runtimes[r := s.(nextHandle := h, controllers := s.controllers[h := w.nextController])],
       controllers := w.controllers[w.nextController := IDLE],
       nextController := w.nextController + 1)
  }

  function Forget(w: World, r: RuntimeId, h: Handle): World
    requires r in w.runtimes
  {
    w.(runtimes := w.runtimes[r := w.runtimes[r].(controllers := w.runtimes[r].controllers - {h})])
  }

  function DestroyController(w: World, r: RuntimeId, h: Handle, closeOk: bool): (World, Reply)
    requires r in w.runtimes
  {
    if !Known(w, r, h) then (w, Failure(ControllerNotFound))
    else
      var (s, reply) := DestroySeat(SeatOf(w, r, h), r, h, closeOk);
      (Forget(WithSeat(w, r, h, s), r, h), reply)
  }

  function Start(w: World, r: RuntimeId, h: Handle, config: string, fd: int, outcome: StartOutcome): (World, Reply)
    requires r in w.runtimes
  {
    if Text.TrimSpace(config) == "" then (w, Failure(BlankConfiguration))
    else if fd < 0 then (w, Failure(NegativeDescriptor))
    else if w.process.assetOwner != Some(r) || w.process.assetDirectory == "" then (w, Failure(AssetsNotInitialized))
    else if !Known(w, r, h) then (w, Failure(ControllerNotFound))
    else
      var (s, reply) := StartSeat(SeatOf(w, r, h), r, h, fd, outcome);
      (WithSeat(w, r, h, s), reply)
  }

  function Stop(w: World, r: RuntimeId, h: Handle, closeOk: bool): (World, Reply)
    requires r in w.runtimes
  {
    if !Known(w, r, h) then (w, Failure(ControllerNotFound))
    else
      var (s, reply) := StopSeat(SeatOf(w, r, h), r, h, closeOk);
      (WithSeat(w, r, h, s), reply)
  }

  function IsRunning(w: World, r: RuntimeId, h: Handle): (World, Reply)
    requires r in w.runtimes
  {
    if !Known(w, r, h) then (w, Failure(ControllerNotFound))
    else
      var (s, reply) := IsRunningSeat(SeatOf(w, r, h), r, h);
      (WithSeat(w, r, h, s), reply)
  }

  // ---------- Runs ----------

  datatype Op =
    | OpNewRuntime
    | OpInitializeAssets(r: RuntimeId, directory: Option<string>)
    | OpCreate(r: RuntimeId)
    | OpDestroy(r: RuntimeId, h: Handle, closeOk: bool)
    | OpStart(r: RuntimeId, h: Handle, config: string, fd: int, outcome: StartOutcome)
    | OpStop(r: RuntimeId, h: Handle, closeOk: bool)
    | OpIsRunning(r: RuntimeId, h: Handle)

  function NewRuntime(w: World): World {
    w.(runtimes := w.runtimes[|w.runtimes| := RuntimeState(map[], 0, 0, "")])
  }

  /** One host call. A call on a runtime that was never created cannot be made. */
  function Step(w: World, op: Op): World {
    if op.OpNewRuntime? then NewRuntime(w)
    else if op.r !in w.runtimes then w
    else
      match op
      case OpInitializeAssets(r, directory) => InitializeAssets(w, r, directory).0
      case OpCreate(r) => CreateController(w, r)
      case OpDestroy(r, h, closeOk) => DestroyController(w, r, h, closeOk).0
      case OpStart(r, h, config, fd, outcome) => Start(w, r, h, config, fd, outcome).0
      case OpStop(r, h, closeOk) => Stop(w, r, h, closeOk).0
      case OpIsRunning(r, h) => IsRunning(w, r, h).0
  }

  const INITIAL := World(Process(None, "", None, 0, None, None, None, 0), map[], map[], 0)

  function Run(ops: seq<Op>): World {
    if ops == [] then INITIAL else Step(Run(ops[..|ops| - 1]), ops[|ops| - 1])
  }

  // ---------- The invariant ----------

  /** Handle `h` of runtime `r` names controller `c`. */
  ghost predicate Names(w: World, r: RuntimeId, h: Handle, c: ControllerId) {
    r in w.runtimes && h in w.runtimes[r].controllers && w.runtimes[r].controllers[h] == c
  }

  /** Runtimes and controllers are numbered from zero; at most one handle names a controller. */
  ghost predicate Registry(w: World) {
    && (forall r :: r in w.runtimes ==> r < |w.runtimes|)
    && (forall c :: c in w.controllers ==> c < w.nextController)
    && (forall r, h, c :: Names(w, r, h, c) ==> h != 0 && c in w.controllers)
    && (forall r, h, r', h', c :: Names(w, r, h, c) && Names(w, r', h', c) ==> r == r' && h == h')
  }

  ghost predicate Assets(w: World) {
    w.process.assetOwner.Some? ==>
      && w.process.assetDirectory != ""
      && w.process.assetOwner.value in w.runtimes
      && w.runtimes[w.process.assetOwner.value].assetDir == w.process.assetDirectory
  }

  /** Nobody holds the lease, and nothing that follows it is left behind. */
  ghost predicate Unleased(w: World) {
    && w.process.activeHandle == 0
    && (forall c :: c in w.controllers ==> w.controllers[c] == IDLE)
    && (forall r :: r in w.runtimes ==> w.runtimes[r].active == 0)
    && w.process.tunFd.None? && w.process.v2rayTunFd.None? && w.process.activeLog.None?
  }

  /** Controller `h` of runtime `r` holds the lease, and all its copies agree. */
  ghost predicate LeasedTo(w: World, r: RuntimeId, h: Handle) {
    && r in w.runtimes && Known(w, r, h)
    && w.process.assetOwner == Some(r)
    && w.process.activeHandle == h
    && (forall r' :: r' in w.runtimes ==> w.runtimes[r'].active == if r' == r then h else 0)
    && (var c := ControllerOf(w, r, h);
        && w.controllers[c].running
        && w.controllers[c].connLog.Some?
        && w.process.activeLog == w.controllers[c].connLog
        && (forall c' :: c' in w.controllers && c' != c ==> w.controllers[c'] == IDLE))
    && w.process.tunFd == w.process.v2rayTunFd
    && (w.process.tunFd.Some? ==> w.process.tunFd.value > 0)
  }

  ghost predicate Inv(w: World) {
    && Registry(w)
    && Assets(w)
    && (if w.process.activeRuntime.None? then Unleased(w)
        else LeasedTo(w, w.process.activeRuntime.value, w.process.activeHandle))
  }

  /** The lease would be overwritten: the next handle of its runtime is the leased one. */
  ghost predicate ReissuesLease(w: World, r: RuntimeId)
    requires r in w.runtimes
  {
    w.process.activeRuntime == Some(r) && w.process.activeHandle == NextHandle(w.runtimes[r].nextHandle)
  }

  // ---------- What each operation does to a consistent world ----------

  /** `w'` has the same runtimes and controllers, reachable through at most the same handles. */
  ghost predicate Within(w': World, w: World) {
    && w'.runtimes.Keys == w.runtimes.Keys && |w'.runtimes| == |w.runtimes|
    && w'.controllers.Keys == w.controllers.Keys
    && w'.nextController == w.nextController
    && (forall r, h :: r in w.runtimes && h in w'.runtimes[r].controllers ==>
          h in w.runtimes[r].controllers && w'.runtimes[r].controllers[h] == w.runtimes[r].controllers[h])
  }

  lemma RegistryKept(w: World, w': World)
    requires Registry(w) && Within(w', w)
    ensures Registry(w')
  {
    assert forall r, h, c :: Names(w', r, h, c) ==> Names(w, r, h, c);
  }

  /** The handle that names a controller is unique, so two known handles have different controllers. */
  lemma DistinctControllers(w: World, r: RuntimeId, h: Handle, r': RuntimeId, h': Handle)
    requires Registry(w) && r in w.runtimes && r' in w.runtimes
    requires Known(w, r, h) && Known(w, r', h') && (r != r' || h != h')
    ensures ControllerOf(w, r, h) != ControllerOf(w, r', h')
  {
    assert Names(w, r, h, ControllerOf(w, r, h)) && Names(w, r', h', ControllerOf(w, r', h'));
  }

  /** Taking the lease succeeds exactly under these conditions; nothing else is weighed. */
  ghost predicate CanStart(w: World, r: RuntimeId, h: Handle, config: string, fd: int, outcome: StartOutcome)
    requires r in w.runtimes
  {
    Text.TrimSpace(config) != "" && fd >= 0 && w.process.assetOwner == Some(r) && Known(w, r, h)
    && w.process.activeRuntime.None? && outcome.Started?
  }

  lemma StartSucceedsExactlyWhen(w: World, r: RuntimeId, h: Handle, config: string, fd: int, outcome: StartOutcome)
    requires Inv(w) && r in w.runtimes
    ensures Start(w, r, h, config, fd, outcome).1.Success? <==> CanStart(w, r, h, config, fd, outcome)
  {
  }

  /**
   What a start answers, the first obstacle first: a blank configuration, a negative descriptor, assets
   that are not this runtime's, an unknown handle, a lease held by another handle - which is named -
   or by this very handle, and a core that does not start.
   */
  lemma StartAnswers(w: World, r: RuntimeId, h: Handle, config: string, fd: int, outcome: StartOutcome)
    requires Inv(w) && r in w.runtimes
    ensures var reply, blank := Start(w, r, h, config, fd, outcome).1, Text.TrimSpace(config) == "";
      && (blank ==> reply == Failure(BlankConfiguration))
      && (!blank && fd < 0 ==> reply == Failure(NegativeDescriptor))
      && (!blank && fd >= 0 ==>
            && (w.process.assetOwner != Some(r) ==> reply == Failure(AssetsNotInitialized))
            && (w.process.assetOwner == Some(r) && !Known(w, r, h) ==> reply == Failure(ControllerNotFound)))
    ensures var p, reply := w.process, Start(w, r, h, config, fd, outcome).1;
      Text.TrimSpace(config) != "" && fd >= 0 && p.assetOwner == Some(r) && Known(w, r, h) ==>
        && (p.activeRuntime.Some? && !(p.activeRuntime == Some(r) && p.activeHandle == h) ==>
              reply == Failure(AnotherControllerActive(p.activeHandle)))
        && (p.activeRuntime == Some(r) && p.activeHandle == h ==> reply == Failure(AlreadyRunning))
        && (p.activeRuntime.None? && outcome != Started ==> reply == Failure(StartRejected(outcome)))
        && (p.activeRuntime.None? && outcome == Started ==> reply == Success(true))
  {
  }

  /** What stopping and destroying answer: only a failing close of the holder is an error on a known handle. */
  lemma StopAnswers(w: World, r: RuntimeId, h: Handle, closeOk: bool)
    requires Inv(w) && r in w.runtimes
    ensures var holds := w.process.activeRuntime == Some(r) && w.process.activeHandle == h;
      && (!Known(w, r, h) ==>
            Stop(w, r, h, closeOk).1 == DestroyController(w, r, h, closeOk).1 == Failure(ControllerNotFound))
      && (Known(w, r, h) && holds && !closeOk ==>
            Stop(w, r, h, closeOk).1 == DestroyController(w, r, h, closeOk).1 == Failure(CloseFailed))
      && (Known(w, r, h) && !(holds && !closeOk) ==>
            Stop(w, r, h, closeOk).1 == DestroyController(w, r, h, closeOk).1 == Success(true))
  {
    if Known(w, r, h) && w.process.activeRuntime.Some?
      && !(w.process.activeRuntime == Some(r) && w.process.activeHandle == h)
    {
      DistinctControllers(w, r, h, w.process.activeRuntime.value, w.process.activeHandle);
    }
  }

  /** Registering assets answers a bad directory before a held lease, and names the holder. */
  lemma InitializeAnswers(w: World, r: RuntimeId, directory: Option<string>)
    requires r in w.runtimes
    ensures var reply, bad := InitializeAssets(w, r, directory).1, directory.None? || directory.value == "";
      && (bad ==> reply == Failure(BadDirectory))
      && (!bad && w.process.activeRuntime.Some? ==> reply == Failure(AssetsInUse(w.process.activeHandle)))
      && (!bad && w.process.activeRuntime.None? ==> reply == Success(true))
    ensures var (after, reply) := InitializeAssets(w, r, directory);
      reply.Success? ==>
        && after.process.assetOwner == Some(r) && after.process.assetDirectory == directory.value
        && after.runtimes[r].assetDir == directory.value
  {
  }

  lemma StartTakesTheLease(w: World, r: RuntimeId, h: Handle, config: string, fd: int)
    requires Inv(w) && r in w.runtimes && CanStart(w, r, h, config, fd, Started)
    ensures var w' := Start(w, r, h, config, fd, Started).0;
      && Inv(w')
      && w'.process.activeRuntime == Some(r) && w'.process.activeHandle == h
      && w'.process.tunFd == w'.process.v2rayTunFd == (if fd > 0 then Some(fd) else None)
  {
    var w' := Start(w, r, h, config, fd, Started).0;
    RegistryKept(w, w');
  }

  lemma SessionNumberIsFree(w: World, n: SessionId)
    requires Inv(w)
    ensures Inv(w.(process := w.process.(nextSession := n)))
  {
    RegistryKept(w, w.(process := w.process.(nextSession := n)));
  }

  /** A failed start changes nothing a later call can see: only a log number may have been used up. */
  lemma FailedStartChangesNothing(w: World, r: RuntimeId, h: Handle, config: string, fd: int, outcome: StartOutcome)
    requires Inv(w) && r in w.runtimes && !CanStart(w, r, h, config, fd, outcome)
    ensures var w' := Start(w, r, h, config, fd, outcome).0;
      w' == w.(process := w.process.(nextSession := w'.process.nextSession)) && Inv(w')
  {
    var w' := Start(w, r, h, config, fd, outcome).0;
    SessionNumberIsFree(w, w'.process.nextSession);
    hide Registry;
  }

  /** Stopping an idle or unknown handle changes nothing at all. */
  lemma StopOfAnIdleHandleChangesNothing(w: World, r: RuntimeId, h: Handle, closeOk: bool)
    requires Inv(w) && r in w.runtimes && !(w.process.activeRuntime == Some(r) && w.process.activeHandle == h)
    ensures Stop(w, r, h, closeOk).0 == w
    ensures Stop(w, r, h, closeOk).1.Success? <==> Known(w, r, h)
  {
    if Known(w, r, h) && w.process.activeRuntime.Some? {
      DistinctControllers(w, r, h, w.process.activeRuntime.value, w.process.activeHandle);
    }
  }

  /** Stopping the holder releases the lease, whether or not the core closed cleanly. */
  lemma StopReleasesTheLease(w: World, r: RuntimeId, h: Handle, closeOk: bool)
    requires Inv(w) && w.process.activeRuntime == Some(r) && w.process.activeHandle == h
    ensures var (w', reply) := Stop(w, r, h, closeOk);
      Inv(w') && w'.process.activeRuntime.None? && (reply.Success? <==> closeOk)
  {
    RegistryKept(w, Stop(w, r, h, closeOk).0);
  }

  /** A session leaves no trace: stopping after a start gives the earlier world back. */
  lemma {:induction false} StopUndoesStart(w: World, r: RuntimeId, h: Handle, config: string, fd: int, closeOk: bool)
    requires Inv(w) && r in w.runtimes && CanStart(w, r, h, config, fd, Started)
    ensures var w1 := Start(w, r, h, config, fd, Started).0;
      Stop(w1, r, h, closeOk).0 == w.(process := w.process.(nextSession := w.process.nextSession + 1))
  {
    var w1 := Start(w, r, h, config, fd, Started).0;
    var w2 := Stop(w1, r, h, closeOk).0;
    assert w2.controllers == w.controllers;
    assert w2.runtimes == w.runtimes;
  }

  /** Destroying is stopping and then forgetting the handle. */
  lemma {:induction false} DestroyIsStopThenForget(w: World, r: RuntimeId, h: Handle, closeOk: bool)
    requires r in w.runtimes && Known(w, r, h)
    ensures DestroyController(w, r, h, closeOk).0 == Forget(Stop(w, r, h, closeOk).0, r, h)
    ensures DestroyController(w, r, h, closeOk).1 == Stop(w, r, h, closeOk).1
  {
  }

  lemma ForgetKeepsConsistency(w: World, r: RuntimeId, h: Handle)
    requires Inv(w) && r in w.runtimes && !(w.process.activeRuntime == Some(r) && w.process.activeHandle == h)
    ensures Inv(Forget(w, r, h)) && !Known(Forget(w, r, h), r, h)
  {
    RegistryKept(w, Forget(w, r, h));
  }

  lemma StopKeepsConsistency(w: World, r: RuntimeId, h: Handle, closeOk: bool)
    requires Inv(w) && r in w.runtimes
    ensures var w' := Stop(w, r, h, closeOk).0;
      Inv(w') && r in w'.runtimes && !(w'.process.activeRuntime == Some(r) && w'.process.activeHandle == h)
  {
    if w.process.activeRuntime == Some(r) && w.process.activeHandle == h {
      StopReleasesTheLease(w, r, h, closeOk);
    } else {
      StopOfAnIdleHandleChangesNothing(w, r, h, closeOk);
    }
  }

  lemma DestroyKeepsConsistency(w: World, r: RuntimeId, h: Handle, closeOk: bool)
    requires Inv(w) && r in w.runtimes
    ensures var w' := DestroyController(w, r, h, closeOk).0;
      && Inv(w') && r in w'.runtimes && !Known(w', r, h)
      && !(w'.process.activeRuntime == Some(r) && w'.process.activeHandle == h)
  {
    if Known(w, r, h) {
      DestroyIsStopThenForget(w, r, h, closeOk);
      StopKeepsConsistency(w, r, h, closeOk);
      ForgetKeepsConsistency(Stop(w, r, h, closeOk).0, r, h);
    }
  }

  /** Asking is an observation: it repairs nothing because there is nothing to repair. */
  lemma IsRunningObserves(w: World, r: RuntimeId, h: Handle)
    requires Inv(w) && r in w.runtimes
    ensures IsRunning(w, r, h).0 == w
    ensures Known(w, r, h) ==>
      IsRunning(w, r, h).1 == Success(w.process.activeRuntime == Some(r) && w.process.activeHandle == h)
  {
    if Known(w, r, h) && w.process.activeRuntime.Some?
      && !(w.process.activeRuntime == Some(r) && w.process.activeHandle == h)
    {
      DistinctControllers(w, r, h, w.process.activeRuntime.value, w.process.activeHandle);
    }
  }

  lemma InitializeKeepsConsistency(w: World, r: RuntimeId, directory: Option<string>)
    requires Inv(w) && r in w.runtimes
    ensures Inv(InitializeAssets(w, r, directory).0)
    ensures InitializeAssets(w, r, directory).1.Success? <==>
      directory.Some? && directory.value != "" && w.process.activeRuntime.None?
    ensures InitializeAssets(w, r, directory).1.Failure? ==> InitializeAssets(w, r, directory).0 == w
  {
    RegistryKept(w, InitializeAssets(w, r, directory).0);
  }

  lemma CreateKeepsRegistry(w: World, r: RuntimeId)
    requires Registry(w) && r in w.runtimes
    ensures Registry(CreateController(w, r))
  {
    var w' := CreateController(w, r);
    assert w'.runtimes.Keys == w.runtimes.Keys;
    var h := NextHandle(w.runtimes[r].nextHandle);
    forall r', h', c | Names(w', r', h', c)
      ensures if r' == r && h' == h then c == w.nextController else Names(w, r', h', c)
    {
    }
    assert w'.controllers.Keys == w.controllers.Keys + {w.nextController};
  }

  /** A new handle keeps the world consistent exactly when it is not the handle that holds the lease. */
  lemma CreateKeepsConsistencyExactlyWhen(w: World, r: RuntimeId)
    requires Inv(w) && r in w.runtimes
    ensures Inv(CreateController(w, r)) <==> !ReissuesLease(w, r)
  {
    CreateKeepsRegistry(w, r);
    var w' := CreateController(w, r);
    if w.process.activeRuntime.Some? {
      var a, h := w.process.activeRuntime.value, w.process.activeHandle;
      assert Names(w, a, h, ControllerOf(w, a, h));
      assert Known(w', a, h);
    }
  }

  lemma NewRuntimeKeepsConsistency(w: World)
    requires Inv(w)
    ensures Inv(NewRuntime(w))
  {
    var w' := NewRuntime(w);
    assert |w.runtimes| !in w.runtimes;
    assert |w'.runtimes| == |w.runtimes| + 1;
    forall r, h, c | Names(w', r, h, c) ensures Names(w, r, h, c) {
    }
  }

  // ---------- Every run ----------

  /** Every issued handle is at most the counter, and the counter at most the number of calls. */
  ghost predicate CountedHandles(w: World, n: nat) {
    forall r :: r in w.runtimes ==>
      w.runtimes[r].nextHandle <= n && forall h :: h in w.runtimes[r].controllers ==> h <= w.runtimes[r].nextHandle
  }

  /** Handles and their counters are as before; only active handles may differ. */
  ghost predicate OnlyReleases(w': World, w: World) {
    w'.runtimes.Keys == w.runtimes.Keys
    && forall r :: r in w.runtimes ==>
         w'.runtimes[r].controllers == w.runtimes[r].controllers
         && w'.runtimes[r].nextHandle == w.runtimes[r].nextHandle
  }

  lemma StartOnlyReleases(w: World, r: RuntimeId, h: Handle, config: string, fd: int, outcome: StartOutcome)
    requires r in w.runtimes
    ensures OnlyReleases(Start(w, r, h, config, fd, outcome).0, w)
  {
    hide StartSeat, Text.TrimSpace;
  }

  lemma StopOnlyReleases(w: World, r: RuntimeId, h: Handle, closeOk: bool)
    requires r in w.runtimes
    ensures OnlyReleases(Stop(w, r, h, closeOk).0, w)
  {
  }

  lemma ReleasesKeepCount(w: World, w': World, n: nat)
    requires CountedHandles(w, n) && OnlyReleases(w', w)
    ensures CountedHandles(w', n + 1)
  {
  }

  lemma CreateKeepsCount(w: World, r: RuntimeId, n: nat)
    requires CountedHandles(w, n) && n + 1 < HANDLE_LIMIT && r in w.runtimes
    ensures CountedHandles(CreateController(w, r), n + 1)
  {
  }

  lemma ForgetKeepsCount(w: World, r: RuntimeId, h: Handle, n: nat)
    requires CountedHandles(w, n) && r in w.runtimes
    ensures CountedHandles(Forget(w, r, h), n)
  {
  }

  lemma DestroyKeepsCount(w: World, r: RuntimeId, h: Handle, closeOk: bool, n: nat)
    requires CountedHandles(w, n) && r in w.runtimes
    ensures CountedHandles(DestroyController(w, r, h, closeOk).0, n + 1)
  {
    hide CountedHandles, Stop, Forget, DestroySeat;
    StopOnlyReleases(w, r, h, closeOk);
    ReleasesKeepCount(w, Stop(w, r, h, closeOk).0, n);
    if Known(w, r, h) {
      DestroyIsStopThenForget(w, r, h, closeOk);
      ForgetKeepsCount(Stop(w, r, h, closeOk).0, r, h, n + 1);
    } else {
      SameWorldKeepsCount(w, n);
    }
  }

  lemma SameWorldKeepsCount(w: World, n: nat)
    requires CountedHandles(w, n)
    ensures CountedHandles(w, n + 1)
  {
  }

  lemma InitializeOnlyReleases(w: World, r: RuntimeId, directory: Option<string>)
    requires r in w.runtimes
    ensures OnlyReleases(InitializeAssets(w, r, directory).0, w)
  {
  }

  lemma IsRunningOnlyReleases(w: World, r: RuntimeId, h: Handle)
    requires r in w.runtimes
    ensures OnlyReleases(IsRunning(w, r, h).0, w)
  {
  }

  lemma NewRuntimeKeepsCount(w: World, n: nat)
    requires CountedHandles(w, n)
    ensures CountedHandles(NewRuntime(w), n + 1)
  {
  }

  lemma StepKeepsCount(w: World, op: Op, n: nat)
    requires CountedHandles(w, n) && n + 1 < HANDLE_LIMIT
    ensures CountedHandles(Step(w, op), n + 1)
  {
    hide CountedHandles, OnlyReleases, Start, Stop, DestroyController;
    hide CreateController, InitializeAssets, IsRunning, NewRuntime;
    if op.OpNewRuntime? {
      NewRuntimeKeepsCount(w, n);
    } else if op.r !in w.runtimes {
      SameWorldKeepsCount(w, n);
    } else {
      match op
      case OpInitializeAssets(r, directory) =>
        InitializeOnlyReleases(w, r, directory);
        ReleasesKeepCount(w, Step(w, op), n);
      case OpCreate(r) => CreateKeepsCount(w, r, n);
      case OpDestroy(r, h, closeOk) => DestroyKeepsCount(w, r, h, closeOk, n);
      case OpStart(r, h, config, fd, outcome) =>
        StartOnlyReleases(w, r, h, config, fd, outcome);
        ReleasesKeepCount(w, Step(w, op), n);
      case OpStop(r, h, closeOk) =>
        StopOnlyReleases(w, r, h, closeOk);
        ReleasesKeepCount(w, Step(w, op), n);
      case OpIsRunning(r, h) =>
        IsRunningOnlyReleases(w, r, h);
        ReleasesKeepCount(w, Step(w, op), n);
    }
  }

  lemma CountedHandleIsNew(w: World, r: RuntimeId, n: nat)
    requires Inv(w) && CountedHandles(w, n) && n + 1 < HANDLE_LIMIT && r in w.runtimes
    ensures !ReissuesLease(w, r)
  {
  }

  /** The call creates a controller under the very handle that holds the lease. */
  ghost predicate Reissues(w: World, op: Op) {
    op.OpCreate? && op.r in w.runtimes && ReissuesLease(w, op.r)
  }

  lemma StepKeepsConsistencyExactlyWhen(w: World, op: Op)
    requires Inv(w)
    ensures Inv(Step(w, op)) <==> !Reissues(w, op)
  {
    hide Inv, Start, Stop, DestroyController, InitializeAssets, IsRunning, CreateController, NewRuntime, ReissuesLease;
    if op.OpNewRuntime? {
      NewRuntimeKeepsConsistency(w);
    } else if op.r in w.runtimes {
      match op
      case OpInitializeAssets(r, directory) => InitializeKeepsConsistency(w, r, directory);
      case OpCreate(r) => CreateKeepsConsistencyExactlyWhen(w, r);
      case OpDestroy(r, h, closeOk) => DestroyKeepsConsistency(w, r, h, closeOk);
      case OpStart(r, h, config, fd, outcome) =>
        if CanStart(w, r, h, config, fd, outcome) {
          StartTakesTheLease(w, r, h, config, fd);
        } else {
          FailedStartChangesNothing(w, r, h, config, fd, outcome);
        }
      case OpStop(r, h, closeOk) => StopKeepsConsistency(w, r, h, closeOk);
      case OpIsRunning(r, h) => IsRunningObserves(w, r, h);
    }
  }

  /** No call of the run creates a controller under the handle that holds the lease just then. */
  ghost predicate NeverReissues(ops: seq<Op>) {
    ops == [] || (NeverReissues(ops[..|ops| - 1]) && !Reissues(Run(ops[..|ops| - 1]), ops[|ops| - 1]))
  }

  ghost predicate AlwaysConsistent(ops: seq<Op>) {
    Inv(Run(ops)) && (ops == [] || AlwaysConsistent(ops[..|ops| - 1]))
  }

  /** The world stays consistent all through a run exactly when the run never reissues the leased handle. */
  lemma {:induction false} ConsistentExactlyWhenNeverReissued(ops: seq<Op>)
    ensures AlwaysConsistent(ops) <==> NeverReissues(ops)
  {
    hide Inv, Step, Reissues;
    if ops == [] {
      InitialIsConsistent();
    } else {
      var before := ops[..|ops| - 1];
      ConsistentExactlyWhenNeverReissued(before);
      if AlwaysConsistent(before) {
        StepKeepsConsistencyExactlyWhen(Run(before), ops[|ops| - 1]);
      }
    }
  }

  lemma InitialIsConsistent()
    ensures Inv(INITIAL)
  {
  }

  /** A run that is too short to wrap the handle counter never reissues a handle. */
  lemma {:induction false} ShortRunsNeverReissue(ops: seq<Op>)
    requires |ops| < HANDLE_LIMIT
    ensures NeverReissues(ops) && Inv(Run(ops)) && CountedHandles(Run(ops), |ops|)
  {
    hide Inv, Step, ReissuesLease, CountedHandles;
    if ops == [] {
      InitialIsConsistent();
      NothingCounted();
    } else {
      var n := |ops| - 1;
      ShortRunsNeverReissue(ops[..n]);
      var w, op := Run(ops[..n]), ops[n];
      if op.OpCreate? && op.r in w.runtimes {
        CountedHandleIsNew(w, op.r, n);
      }
      StepKeepsConsistencyExactlyWhen(w, op);
      StepKeepsCount(w, op, n);
    }
  }

  lemma NothingCounted()
    ensures CountedHandles(INITIAL, 0)
  {
  }

  ghost predicate Running(w: World, c: ControllerId) {
    c in w.controllers && w.controllers[c].running
  }

  /** The three records of the lease, and what follows it, agree after every run. */
  lemma {:induction false} LeaseRecordsAgree(ops: seq<Op>)
    requires NeverReissues(ops)
    ensures var w := Run(ops);
      // at most one core runs
      && (forall c, c' :: Running(w, c) && Running(w, c') ==> c == c')
      // a handle runs exactly when the process state and its runtime name it
      && (forall r, h :: r in w.runtimes && Known(w, r, h) ==>
            && (Running(w, ControllerOf(w, r, h)) <==>
                  w.process.activeRuntime == Some(r) && w.process.activeHandle == h)
            && (Running(w, ControllerOf(w, r, h)) <==> w.runtimes[r].active == h))
      // every running core has a handle
      && (forall c :: Running(w, c) ==>
            w.process.activeRuntime.Some? && Names(w, w.process.activeRuntime.value, w.process.activeHandle, c))
      // every other runtime has no active handle
      && (forall r :: r in w.runtimes && w.process.activeRuntime != Some(r) ==> w.runtimes[r].active == 0)
      // the assets, the descriptor variables and the active log follow the lease
      && (w.process.activeRuntime.Some? ==>
            w.process.assetOwner == w.process.activeRuntime && w.process.assetDirectory != "")
      && w.process.tunFd == w.process.v2rayTunFd && (w.process.tunFd.Some? ==> w.process.activeRuntime.Some?)
      && (w.process.activeLog.Some? <==> w.process.activeRuntime.Some?)
      && (forall c :: Running(w, c) ==> w.process.activeLog == w.controllers[c].connLog)
  {
    ConsistentExactlyWhenNeverReissued(ops);
    var w := Run(ops);
    forall r, h | r in w.runtimes && Known(w, r, h)
      ensures Running(w, ControllerOf(w, r, h)) <==> w.process.activeRuntime == Some(r) && w.process.activeHandle == h
      ensures Running(w, ControllerOf(w, r, h)) <==> w.runtimes[r].active == h
    {
      if w.process.activeRuntime.Some? && !(w.process.activeRuntime == Some(r) && w.process.activeHandle == h) {
        DistinctControllers(w, r, h, w.process.activeRuntime.value, w.process.activeHandle);
      }
    }
  }

  // ---------- Where the handle counter wraps ----------

  /** A reissued handle orphans the session: it can be stopped no more, yet the lease becomes free. */
  lemma ReissueOrphansTheSession(w: World, r: RuntimeId, closeOk: bool)
    requires Inv(w) && r in w.runtimes && ReissuesLease(w, r)
    ensures var w' := Stop(CreateController(w, r), r, w.process.activeHandle, closeOk).0;
      w'.process.activeRuntime.None? && exists c :: Running(w', c)
  {
    var c := ControllerOf(w, r, w.process.activeHandle);
    assert c != w.nextController;
    var w1 := CreateController(w, r);
    assert Known(w1, r, w.process.activeHandle) && ControllerOf(w1, r, w.process.activeHandle) == w.nextController;
    var w' := Stop(w1, r, w.process.activeHandle, closeOk).0;
    assert Running(w', c);
  }

  lemma RunAppend(ops: seq<Op>, op: Op)
    ensures Run(ops + [op]) == Step(Run(ops), op)
  {
    assert (ops + [op])[..|ops|] == ops;
  }

  /** Runtime 0 has issued `n` handles, and a session runs on the first of them. */
  ghost predicate RunsFirstHandle(w: World, n: nat) {
    Inv(w) && w.process.activeRuntime == Some(0) && w.process.activeHandle == 1
    && 0 in w.runtimes && w.runtimes[0].nextHandle == n
  }

  /** Runtime 0 has its assets and has issued its first handle; nothing runs yet. */
  ghost predicate ReadyToStart(w: World) {
    Inv(w) && w.process.activeRuntime.None? && w.process.assetOwner == Some(0)
    && 0 in w.runtimes && w.runtimes[0].nextHandle == 1 && Known(w, 0, 1)
  }

  lemma FirstHandle() returns (ops: seq<Op>)
    ensures |ops| == 3 && ReadyToStart(Run(ops))
  {
    var none: seq<Op> := [];
    var ops1 := none + [OpNewRuntime];
    var ops2 := ops1 + [OpInitializeAssets(0, Some("/"))];
    ops := ops2 + [OpCreate(0)];
    RunAppend(none, OpNewRuntime);
    RunAppend(ops1, OpInitializeAssets(0, Some("/")));
    RunAppend(ops2, OpCreate(0));
    ShortRunsNeverReissue(ops);
  }

  lemma FirstSession() returns (ops: seq<Op>)
    ensures |ops| == 4 && RunsFirstHandle(Run(ops), 1)
  {
    hide Inv, Run, InitializeAssets, DestroyController, Stop, IsRunning;
    var before := FirstHandle();
    var w, config := Run(before), "{";
    assert Text.TrimSpace(config) != "";
    ops := before + [OpStart(0, 1, config, 0, Started)];
    RunAppend(before, OpStart(0, 1, config, 0, Started));
    StartTakesTheLease(w, 0, 1, config, 0);
    StartOnlyReleases(w, 0, 1, config, 0, Started);
  }

  function Creates(n: nat): seq<Op> { seq(n, i => OpCreate(0)) }

  lemma CreateAdvances(w: World, n: nat)
    requires RunsFirstHandle(w, n) && 0 < n && n + 1 < HANDLE_LIMIT
    ensures RunsFirstHandle(CreateController(w, 0), n + 1)
  {
    CreateKeepsConsistencyExactlyWhen(w, 0);
  }

  lemma {:induction false} CreatesCountUp(ops: seq<Op>, n: nat)
    requires RunsFirstHandle(Run(ops), 1) && n <= HANDLE_LIMIT - 2
    ensures RunsFirstHandle(Run(ops + Creates(n)), n + 1)
  {
    hide Inv, Run, CreateController, Start, Stop, DestroyController, InitializeAssets, IsRunning;
    if n == 0 {
      assert ops + Creates(0) == ops;
    } else {
      CreatesCountUp(ops, n - 1);
      var before := ops + Creates(n - 1);
      assert ops + Creates(n) == before + [OpCreate(0)];
      RunAppend(before, OpCreate(0));
      CreateAdvances(Run(before), n);
    }
  }

  /** The bound on the length of a run is needed: a longer run of plain calls breaks the lease. */
  lemma WrappedCounterBreaksTheLease()
    ensures exists ops :: |ops| == HANDLE_LIMIT + 3 && !Inv(Run(ops))
  {
    hide Inv, Run, CreateController, Start, Stop, DestroyController, InitializeAssets, IsRunning;
    var n := HANDLE_LIMIT - 2;
    var first := FirstSession();
    CreatesCountUp(first, n);
    var before := first + Creates(n);
    CreateKeepsConsistencyExactlyWhen(Run(before), 0);
    RunAppend(before, OpCreate(0));
    assert |before + [OpCreate(0)]| == HANDLE_LIMIT + 3;
  }
}
