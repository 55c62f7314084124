/**
 The desktop bridge in its imperative form: the process state, the runtimes and the controllers as
 objects that update their fields in place. Each method is proved to do to the fields it may touch
 what SessionLease describes for one seat; the modifies clauses say that it touches nothing else.
 */
module DesktopBridge {
  import opened Wrappers
  import opened SessionLease
  import Text

  /** The process-wide state: coreProcessState, the TUN variables and the active connection log. */
  class CoreProcess {
    var assetRuntime: Option<Runtime>
    var assetDirectory: string
    var activeRuntime: Option<Runtime>
    var activeHandle: Handle
    var tunFd: Option<int>
    var v2rayTunFd: Option<int>
    var activeLog: Option<SessionId>
    var nextSession: SessionId

    constructor ()
      ensures State() == Process(None, "", None, 0, None, None, None, 0)
    {
      assetRuntime, assetDirectory := None, "";
      activeRuntime, activeHandle := None, 0;
      tunFd, v2rayTunFd, activeLog, nextSession := None, None, None, 0;
    }

    ghost function State(): Process<Runtime>
      reads this
    {
      Process(assetRuntime, assetDirectory, activeRuntime, activeHandle, tunFd, v2rayTunFd, activeLog, nextSession)
    }

    method PublishTunFd(fd: int)
      modifies this`tunFd, this`v2rayTunFd
      ensures State() == SessionLease.PublishTunFd(old(State()), fd)
    {
      if fd > 0 {
        tunFd := Some(fd);
        v2rayTunFd := Some(fd);
      } else {
        ClearTunFd();
      }
    }

    method ClearTunFd()
      modifies this`tunFd, this`v2rayTunFd
      ensures State() == SessionLease.ClearTunFd(old(State()))
    {
      tunFd := None;
      v2rayTunFd := None;
    }

    method InstallLog() returns (connLog: SessionId)
      modifies this`activeLog, this`nextSession
      ensures State() == SessionLease.InstallLog(old(State()))
      ensures connLog == old(nextSession)
    {
      connLog := nextSession;
      nextSession := nextSession + 1;
      activeLog := Some(connLog);
    }

    method ClearLog(connLog: Option<SessionId>)
      modifies this`activeLog
      ensures State() == SessionLease.ClearLog(old(State()), connLog)
    {
      if activeLog.Some? && activeLog == connLog {
        activeLog := None;
      }
    }
  }

  class CoreController {
    var isRunning: bool
    var connLog: Option<SessionId>

    constructor ()
      ensures State() == IDLE
    {
      isRunning, connLog := false, None;
    }

    ghost function State(): Controller
      reads this
    {
      Controller(isRunning, connLog)
    }

    method StartLoop(p: CoreProcess, fd: int, outcome: StartOutcome) returns (ok: bool)
      modifies this, p`tunFd, p`v2rayTunFd, p`activeLog, p`nextSession
      ensures (p.State(), State(), ok) == SessionLease.StartLoop(old(p.State()), old(State()), fd, outcome)
    {
      if isRunning || outcome.ConfigRejected? {
        return false;
      }
      p.PublishTunFd(fd);
      if outcome.NewFailed? {
        p.ClearTunFd();
        return false;
      }
      var installed := p.InstallLog();
      if outcome.StartFailed? {
        p.ClearLog(Some(installed));
        p.ClearTunFd();
        return false;
      }
      connLog := Some(installed);
      isRunning := true;
      return true;
    }

    /** The error of a failed close is reported, but the instance is given up all the same. */
    method StopLoop(p: CoreProcess, closeOk: bool) returns (ok: bool)
      modifies this, p`tunFd, p`v2rayTunFd, p`activeLog
      ensures (p.State(), State()) == SessionLease.StopLoop(old(p.State()), old(State()))
      ensures ok <==> !old(isRunning) || closeOk
    {
      if !isRunning {
        return true;
      }
      p.ClearLog(connLog);
      connLog := None;
      isRunning := false;
      p.ClearTunFd();
      return closeOk;
    }
  }

  class Runtime {
    var controllers: map<Handle, CoreController>
    var nextHandle: Handle
    var active: Handle
    var assetDir: string

    constructor ()
      ensures Valid() && controllers == map[] && nextHandle == 0 && active == 0 && assetDir == ""
    {
      controllers, nextHandle, active, assetDir := map[], 0, 0, "";
    }

    /** Zero is no handle, and every handle has a controller of its own. */
    ghost predicate Valid()
      reads this
    {
      && 0 !in controllers
      && forall h, h' :: h in controllers && h' in controllers && controllers[h] == controllers[h'] ==> h == h'
    }

    /** The part of the state that a call on handle `h` reads and writes. */
    ghost function Seat(p: CoreProcess, h: Handle): Seat<Runtime>
      requires h in controllers
      reads this, p, controllers[h]
    {
      SessionLease.Seat(p.State(), active, controllers[h].State())
    }

    method Controller(h: Handle) returns (c: CoreController?)
      ensures c != null <==> h != 0 && h in controllers
      ensures c != null ==> c == controllers[h]
    {
      if h == 0 || h !in controllers {
        return null;
      }
      return controllers[h];
    }

    method InitializeAssets(p: CoreProcess, directory: Option<string>) returns (reply: Reply)
      modifies this`assetDir, p`assetRuntime, p`assetDirectory
      ensures reply.Success? <==> directory.Some? && directory.value != "" && old(p.activeRuntime).None?
      ensures reply.Success? ==>
        reply.value && assetDir == directory.value
        && p.State() == old(p.State()).(assetOwner := Some(this), assetDirectory := directory.value)
      ensures reply.Failure? ==> assetDir == old(assetDir) && p.State() == old(p.State())
      ensures reply.Failure? ==>
        reply.error == (
          if directory.None? || directory.value == "" then BadDirectory else AssetsInUse(old(p.activeHandle)))
    {
      if directory.None? || directory.value == "" {
        return Failure(BadDirectory);
      }
      if p.activeRuntime.Some? {
        return Failure(AssetsInUse(p.activeHandle));
      }
      assetDir := directory.value;
      p.assetRuntime := Some(this);
      p.assetDirectory := directory.value;
      return Success(true);
    }

    method CreateController() returns (h: Handle)
      requires Valid()
      requires forall k :: k in controllers ==> allocated(controllers[k])
      modifies this`nextHandle, this`controllers
      ensures Valid()
      ensures h == nextHandle == NextHandle(old(nextHandle))
      ensures h in controllers && controllers == old(controllers)[h := controllers[h]]
      ensures fresh(controllers[h]) && controllers[h].State() == IDLE
    {
      nextHandle := (nextHandle + 1) % HANDLE_LIMIT;
      if nextHandle == 0 {
        nextHandle := (nextHandle + 1) % HANDLE_LIMIT;
      }
      h := nextHandle;
      var c := new CoreController();
      controllers := controllers[h := c];
    }

    method Release(p: CoreProcess, h: Handle)
      requires h in controllers
      modifies this`active, p`activeRuntime, p`activeHandle
      ensures Seat(p, h) == SessionLease.Release(old(Seat(p, h)), this, h)
    {
      if active == h {
        active := 0;
      }
      if p.activeRuntime == Some(this) && p.activeHandle == h {
        p.activeRuntime := None;
        p.activeHandle := 0;
      }
    }

    method DestroyController(p: CoreProcess, h: Handle, closeOk: bool) returns (reply: Reply)
      requires Valid()
      modifies this`controllers, this`active, if h in controllers then {p, controllers[h]} else {}
      ensures Valid()
      ensures h !in old(controllers) ==>
        reply == Failure(ControllerNotFound) && controllers == old(controllers) && active == old(active)
      ensures h in old(controllers) ==>
        var c := old(controllers[h]);
        controllers == old(controllers) - {h}
        && (SessionLease.Seat(p.State(), active, c.State()), reply) == DestroySeat(old(Seat(p, h)), this, h, closeOk)
    {
      var c := Controller(h);
      if c == null {
        return Failure(ControllerNotFound);
      }
      var ok := true;
      if c.isRunning {
        ok := c.StopLoop(p, closeOk);
      }
      Release(p, h);
      controllers := controllers - {h};
      return if ok then Success(true) else Failure(CloseFailed);
    }

    method Start(p: CoreProcess, h: Handle, config: string, fd: int, outcome: StartOutcome) returns (reply: Reply)
      requires Valid()
      modifies this`active, if h in controllers then {p, controllers[h]} else {}
      ensures Valid()
      ensures Text.TrimSpace(config) == "" ==> reply == Failure(BlankConfiguration)
      ensures Text.TrimSpace(config) != "" && fd < 0 ==> reply == Failure(NegativeDescriptor)
      ensures Text.TrimSpace(config) != "" && fd >= 0 && !old(OwnsAssets(p)) ==> reply == Failure(AssetsNotInitialized)
      ensures Text.TrimSpace(config) != "" && fd >= 0 && old(OwnsAssets(p)) && h !in controllers ==>
        reply == Failure(ControllerNotFound)
      ensures h !in controllers ==> active == old(active)
      ensures h in controllers ==>
        if Text.TrimSpace(config) != "" && fd >= 0 && old(OwnsAssets(p))
        then (Seat(p, h), reply) == StartSeat(old(Seat(p, h)), this, h, fd, outcome)
        else Seat(p, h) == old(Seat(p, h))
    {
      if Text.TrimSpace(config) == "" {
        return Failure(BlankConfiguration);
      }
      if fd < 0 {
        return Failure(NegativeDescriptor);
      }
      if p.assetRuntime != Some(this) || p.assetDirectory == "" {
        return Failure(AssetsNotInitialized);
      }
      var c := Controller(h);
      if c == null {
        return Failure(ControllerNotFound);
      }
      if p.activeRuntime.Some? && (p.activeRuntime != Some(this) || p.activeHandle != h) {
        return Failure(AnotherControllerActive(p.activeHandle));
      }
      if active != 0 && active != h {
        return Failure(AnotherControllerActive(active));
      }
      if c.isRunning {
        return Failure(AlreadyRunning);
      }
      var ok := c.StartLoop(p, fd, outcome);
      if !ok {
        return Failure(StartRejected(outcome));
      }
      active := h;
      p.activeRuntime := Some(this);
      p.activeHandle := h;
      return Success(true);
    }

    ghost predicate OwnsAssets(p: CoreProcess)
      reads p
    {
      p.assetRuntime == Some(this) && p.assetDirectory != ""
    }

    method Stop(p: CoreProcess, h: Handle, closeOk: bool) returns (reply: Reply)
      requires Valid()
      modifies this`active, if h in controllers then {p, controllers[h]} else {}
      ensures Valid()
      ensures h !in controllers ==> reply == Failure(ControllerNotFound) && active == old(active)
      ensures h in controllers ==> (Seat(p, h), reply) == StopSeat(old(Seat(p, h)), this, h, closeOk)
    {
      var c := Controller(h);
      if c == null {
        return Failure(ControllerNotFound);
      }
      var ok := c.StopLoop(p, closeOk);
      Release(p, h);
      return if ok then Success(true) else Failure(CloseFailed);
    }

    method IsRunning(p: CoreProcess, h: Handle) returns (reply: Reply)
      requires Valid()
      modifies this`active, p`activeRuntime, p`activeHandle
      ensures Valid()
      ensures h !in controllers ==>
        reply == Failure(ControllerNotFound) && active == old(active) && p.State() == old(p.State())
      ensures h in controllers ==> (Seat(p, h), reply) == IsRunningSeat(old(Seat(p, h)), this, h)
    {
      var c := Controller(h);
      if c == null {
        return Failure(ControllerNotFound);
      }
      if !c.isRunning {
        Release(p, h);
      }
      return Success(c.isRunning);
    }
  }
}
