/**
 The objects of the desktop bridge together. A process, its runtimes and all their controllers
 mirror one SessionLease world, and each call on the objects is a step of that world; so what is
 proved of every run of the lease holds of the objects.
 */
module DesktopHost {
  import opened Wrappers
  import opened SessionLease
  import opened DesktopBridge
  import Text

  // ---------- A picture of the objects ----------

  datatype RuntimeView = RuntimeView(
    controllers: map<Handle, CoreController>, nextHandle: Handle, active: Handle, assetDir: string)

  /** The fields of all objects at one moment. */
  datatype Picture = Picture(process: Process<Runtime>, runtimes: seq<RuntimeView>, controllers: seq<Controller>)

  ghost function ViewOf(r: Runtime): RuntimeView
    reads r
  {
    RuntimeView(r.controllers, r.nextHandle, r.active, r.assetDir)
  }

  ghost predicate DifferentRuntimes(s: seq<Runtime>) { forall i, j :: 0 <= i < j < |s| ==> s[i] != s[j] }

  ghost predicate DifferentControllers(s: seq<CoreController>) { forall i, j :: 0 <= i < j < |s| ==> s[i] != s[j] }

  ghost function PictureOf(p: CoreProcess, rts: seq<Runtime>, cs: seq<CoreController>): Picture
    reads p, rts, cs
  {
    Picture(
      p.State(),
      seq(|rts|, r requires 0 <= r < |rts| reads rts => ViewOf(rts[r])),
      seq(|cs|, c requires 0 <= c < |cs| reads cs => cs[c].State()))
  }

  // ---------- A picture of a world ----------

  /** The runtime of the number. */
  ghost predicate IsNumbered(number: Option<RuntimeId>, runtime: Option<Runtime>, rts: seq<Runtime>) {
    && (number.Some? <==> runtime.Some?)
    && (number.Some? ==> number.value < |rts| && rts[number.value] == runtime.value)
  }

  ghost predicate ProcessIs(a: Process<RuntimeId>, b: Process<Runtime>, rts: seq<Runtime>) {
    && IsNumbered(a.assetOwner, b.assetOwner, rts)
    && IsNumbered(a.activeRuntime, b.activeRuntime, rts)
    && a.assetDirectory == b.assetDirectory && a.activeHandle == b.activeHandle
    && a.tunFd == b.tunFd && a.v2rayTunFd == b.v2rayTunFd
    && a.activeLog == b.activeLog && a.nextSession == b.nextSession
  }

  ghost predicate RuntimeIs(s: RuntimeState, v: RuntimeView, cs: seq<CoreController>) {
    && s.nextHandle == v.nextHandle && s.active == v.active && s.assetDir == v.assetDir
    && s.controllers.Keys == v.controllers.Keys
    && 0 !in s.controllers
    && (forall h :: h in s.controllers ==> s.controllers[h] < |cs| && v.controllers[h] == cs[s.controllers[h]])
    && (forall h, k :: h in s.controllers && k in s.controllers && s.controllers[h] == s.controllers[k] ==> h == k)
  }

  /** Runtimes and controllers of the world are the objects of their numbers. */
  ghost predicate Pictures(w: World, pic: Picture, rts: seq<Runtime>, cs: seq<CoreController>) {
    && ProcessIs(w.process, pic.process, rts)
    && |pic.runtimes| == |rts| == |w.runtimes| && (forall r: nat :: r in w.runtimes <==> r < |rts|)
    && (forall r :: r in w.runtimes ==> RuntimeIs(w.runtimes[r], pic.runtimes[r], cs))
    && |pic.controllers| == |cs| == w.nextController && (forall c: nat :: c in w.controllers <==> c < |cs|)
    && (forall c :: c in w.controllers ==> w.controllers[c] == pic.controllers[c])
  }

  ghost predicate Mirrors(w: World, p: CoreProcess, rts: seq<Runtime>, cs: seq<CoreController>)
    reads p, rts, cs
  {
    DifferentRuntimes(rts) && DifferentControllers(cs) && Pictures(w, PictureOf(p, rts, cs), rts, cs)
  }

  // ---------- Calls on a seat ----------

  ghost predicate SeatIs(a: Seat<RuntimeId>, b: Seat<Runtime>, rts: seq<Runtime>) {
    ProcessIs(a.process, b.process, rts) && a.active == b.active && a.controller == b.controller
  }

  lemma SameNumber(r: RuntimeId, rts: seq<Runtime>, a: Option<RuntimeId>, b: Option<Runtime>)
    requires DifferentRuntimes(rts) && r < |rts| && IsNumbered(a, b, rts)
    ensures a == Some(r) <==> b == Some(rts[r])
  {
  }

  lemma ReleaseAgrees(a: Seat<RuntimeId>, b: Seat<Runtime>, rts: seq<Runtime>, r: RuntimeId, h: Handle)
    requires DifferentRuntimes(rts) && r < |rts| && SeatIs(a, b, rts)
    ensures SeatIs(Release(a, r, h), Release(b, rts[r], h), rts)
  {
    SameNumber(r, rts, a.process.activeRuntime, b.process.activeRuntime);
  }

  lemma StopAgrees(a: Seat<RuntimeId>, b: Seat<Runtime>, rts: seq<Runtime>, r: RuntimeId, h: Handle, closeOk: bool)
    requires DifferentRuntimes(rts) && r < |rts| && SeatIs(a, b, rts)
    ensures var x, y := StopSeat(a, r, h, closeOk), StopSeat(b, rts[r], h, closeOk);
      SeatIs(x.0, y.0, rts) && x.1 == y.1
  {
    hide SessionLease.Release;
    var (p, c) := StopLoop(a.process, a.controller);
    var (q, d) := StopLoop(b.process, b.controller);
    ReleaseAgrees(a.(process := p, controller := c), b.(process := q, controller := d), rts, r, h);
  }

  lemma DestroyAgrees(a: Seat<RuntimeId>, b: Seat<Runtime>, rts: seq<Runtime>, r: RuntimeId, h: Handle, closeOk: bool)
    requires DifferentRuntimes(rts) && r < |rts| && SeatIs(a, b, rts)
    ensures var x, y := DestroySeat(a, r, h, closeOk), DestroySeat(b, rts[r], h, closeOk);
      SeatIs(x.0, y.0, rts) && x.1 == y.1
  {
    hide SessionLease.Release;
    ReleaseAgrees(a, b, rts, r, h);
    var (p, c) := StopLoop(a.process, a.controller);
    var (q, d) := StopLoop(b.process, b.controller);
    ReleaseAgrees(a.(process := p, controller := c), b.(process := q, controller := d), rts, r, h);
  }

  lemma IsRunningAgrees(a: Seat<RuntimeId>, b: Seat<Runtime>, rts: seq<Runtime>, r: RuntimeId, h: Handle)
    requires DifferentRuntimes(rts) && r < |rts| && SeatIs(a, b, rts)
    ensures var x, y := IsRunningSeat(a, r, h), IsRunningSeat(b, rts[r], h);
      SeatIs(x.0, y.0, rts) && x.1 == y.1
  {
    hide SessionLease.Release;
    ReleaseAgrees(a, b, rts, r, h);
  }

  lemma StartLoopAgrees(
    a: Process<RuntimeId>, b: Process<Runtime>, rts: seq<Runtime>, c: Controller, fd: int, outcome: StartOutcome)
    requires ProcessIs(a, b, rts)
    ensures var x, y := StartLoop(a, c, fd, outcome), StartLoop(b, c, fd, outcome);
      ProcessIs(x.0, y.0, rts) && x.1 == y.1 && x.2 == y.2
  {
    hide IsNumbered;
  }

  lemma TakeLeaseAgrees(a: Seat<RuntimeId>, b: Seat<Runtime>, rts: seq<Runtime>, r: RuntimeId, h: Handle)
    requires r < |rts| && SeatIs(a, b, rts)
    ensures SeatIs(TakeLease(a, r, h), TakeLease(b, rts[r], h), rts)
  {
  }

  lemma StartAgrees(
    a: Seat<RuntimeId>, b: Seat<Runtime>, rts: seq<Runtime>, r: RuntimeId, h: Handle, fd: int, outcome: StartOutcome)
    requires DifferentRuntimes(rts) && r < |rts| && SeatIs(a, b, rts)
    ensures var x, y := StartSeat(a, r, h, fd, outcome), StartSeat(b, rts[r], h, fd, outcome);
      SeatIs(x.0, y.0, rts) && x.1 == y.1
  {
    SameNumber(r, rts, a.process.activeRuntime, b.process.activeRuntime);
    StartLoopAgrees(a.process, b.process, rts, a.controller, fd, outcome);
    assert a.process.activeHandle == b.process.activeHandle;
    assert a.process.activeRuntime.Some? <==> b.process.activeRuntime.Some?;
    hide StartLoop, TakeLease, ProcessIs, IsNumbered;
    var (p, c, ok) := StartLoop(a.process, a.controller, fd, outcome);
    var (q, d, _) := StartLoop(b.process, b.controller, fd, outcome);
    TakeLeaseAgrees(a.(process := p, controller := c), b.(process := q, controller := d), rts, r, h);
  }

  /** The picture with runtime `r`, controller `c` and the process painted anew. */
  function Painted(pic: Picture, r: nat, v: RuntimeView, c: nat, s: Seat<Runtime>): Picture
    requires r < |pic.runtimes| && c < |pic.controllers|
  {
    Picture(s.process, pic.runtimes[r := v], pic.controllers[c := s.controller])
  }

  /** The picture after a call on handle `h` of runtime `r` left its seat as `s`. */
  function Repainted(pic: Picture, r: nat, c: nat, s: Seat<Runtime>): Picture
    requires r < |pic.runtimes| && c < |pic.controllers|
  {
    Painted(pic, r, pic.runtimes[r].(active := s.active), c, s)
  }

  lemma KnownIsRegistered(w: World, pic: Picture, rts: seq<Runtime>, cs: seq<CoreController>, r: RuntimeId, h: Handle)
    requires Pictures(w, pic, rts, cs) && r < |rts|
    ensures r in w.runtimes && (Known(w, r, h) <==> h in pic.runtimes[r].controllers)
    ensures Known(w, r, h) ==>
      ControllerOf(w, r, h) < |cs| && pic.runtimes[r].controllers[h] == cs[ControllerOf(w, r, h)]
  {
    assert RuntimeIs(w.runtimes[r], pic.runtimes[r], cs);
  }

  lemma ActiveRepainted(s: RuntimeState, v: RuntimeView, cs: seq<CoreController>, active: Handle)
    requires RuntimeIs(s, v, cs)
    ensures RuntimeIs(s.(active := active), v.(active := active), cs)
  {
  }

  lemma SeatRepainted(
    w: World, pic: Picture, rts: seq<Runtime>, cs: seq<CoreController>, r: RuntimeId, h: Handle,
    a: Seat<RuntimeId>, b: Seat<Runtime>)
    requires Pictures(w, pic, rts, cs) && r < |rts| && r in w.runtimes && Known(w, r, h) && SeatIs(a, b, rts)
    requires ControllerOf(w, r, h) < |cs|
    ensures Pictures(WithSeat(w, r, h, a), Repainted(pic, r, ControllerOf(w, r, h), b), rts, cs)
  {
    hide ProcessIs, RuntimeIs, Known;
    var w' := WithSeat(w, r, h, a);
    ActiveRepainted(w.runtimes[r], pic.runtimes[r], cs, a.active);
    SameSize(w.runtimes, r, w.runtimes[r].(active := a.active));
    assert forall q: nat :: q in w'.runtimes <==> q in w.runtimes;
    assert forall c: nat :: c in w'.controllers <==> c in w.controllers;
  }

  lemma SameSize<A, B>(m: map<A, B>, k: A, v: B)
    requires k in m
    ensures |m[k := v]| == |m|
  {
    assert m[k := v].Keys == m.Keys;
    assert |m[k := v].Keys| == |m[k := v]| && |m.Keys| == |m|;
  }

  // ---------- Calls on the objects ----------

  /** The seat as the picture shows it. */
  function SeatIn(pic: Picture, r: nat, c: nat): Seat<Runtime>
    requires r < |pic.runtimes| && c < |pic.controllers|
  {
    SessionLease.Seat(pic.process, pic.runtimes[r].active, pic.controllers[c])
  }

  lemma SeatsAgree(w: World, pic: Picture, rts: seq<Runtime>, cs: seq<CoreController>, r: RuntimeId, h: Handle)
    requires Pictures(w, pic, rts, cs) && r < |rts| && r in w.runtimes && Known(w, r, h)
    requires ControllerOf(w, r, h) < |cs|
    ensures |pic.runtimes| == |rts| && |pic.controllers| == |cs|
    ensures SeatIs(SeatOf(w, r, h), SeatIn(pic, r, ControllerOf(w, r, h)), rts)
  {
    hide ProcessIs;
    assert RuntimeIs(w.runtimes[r], pic.runtimes[r], cs);
  }

  lemma {:induction false} StopPictured(
    w: World, pic: Picture, rts: seq<Runtime>, cs: seq<CoreController>, r: RuntimeId, h: Handle, closeOk: bool)
    requires DifferentRuntimes(rts) && Pictures(w, pic, rts, cs) && r < |rts| && r in w.runtimes && Known(w, r, h)
    requires ControllerOf(w, r, h) < |cs|
    ensures var c := ControllerOf(w, r, h);
      var a, b := SessionLease.Stop(w, r, h, closeOk), StopSeat(SeatIn(pic, r, c), rts[r], h, closeOk);
      Pictures(a.0, Repainted(pic, r, c, b.0), rts, cs) && a.1 == b.1
  {
    hide StopSeat, Pictures, WithSeat, Repainted, Known, SeatIs;
    var c := ControllerOf(w, r, h);
    SeatsAgree(w, pic, rts, cs, r, h);
    StopAgrees(SeatOf(w, r, h), SeatIn(pic, r, c), rts, r, h, closeOk);
    SeatRepainted(w, pic, rts, cs, r, h,
      StopSeat(SeatOf(w, r, h), r, h, closeOk).0, StopSeat(SeatIn(pic, r, c), rts[r], h, closeOk).0);
  }

  lemma {:induction false} StartPictured(
    w: World, pic: Picture, rts: seq<Runtime>, cs: seq<CoreController>, r: RuntimeId, h: Handle,
    config: string, fd: int, outcome: StartOutcome)
    requires DifferentRuntimes(rts) && Pictures(w, pic, rts, cs) && r < |rts| && r in w.runtimes && Known(w, r, h)
    requires ControllerOf(w, r, h) < |cs|
    requires Text.TrimSpace(config) != "" && fd >= 0
    requires w.process.assetOwner == Some(r) && w.process.assetDirectory != ""
    ensures var c := ControllerOf(w, r, h);
      var a := SessionLease.Start(w, r, h, config, fd, outcome);
      var b := StartSeat(SeatIn(pic, r, c), rts[r], h, fd, outcome);
      Pictures(a.0, Repainted(pic, r, c, b.0), rts, cs) && a.1 == b.1
  {
    hide StartSeat, Pictures, WithSeat, Repainted, Known, SeatIs, Text.TrimSpace;
    var c := ControllerOf(w, r, h);
    SeatsAgree(w, pic, rts, cs, r, h);
    StartAgrees(SeatOf(w, r, h), SeatIn(pic, r, c), rts, r, h, fd, outcome);
    SeatRepainted(w, pic, rts, cs, r, h,
      StartSeat(SeatOf(w, r, h), r, h, fd, outcome).0, StartSeat(SeatIn(pic, r, c), rts[r], h, fd, outcome).0);
  }

  lemma {:induction false} IsRunningPictured(
    w: World, pic: Picture, rts: seq<Runtime>, cs: seq<CoreController>, r: RuntimeId, h: Handle)
    requires DifferentRuntimes(rts) && Pictures(w, pic, rts, cs) && r < |rts| && r in w.runtimes && Known(w, r, h)
    requires ControllerOf(w, r, h) < |cs|
    ensures var c := ControllerOf(w, r, h);
      var a, b := SessionLease.IsRunning(w, r, h), IsRunningSeat(SeatIn(pic, r, c), rts[r], h);
      Pictures(a.0, Repainted(pic, r, c, b.0), rts, cs) && a.1 == b.1
  {
    hide IsRunningSeat, Pictures, WithSeat, Repainted, Known, SeatIs;
    var c := ControllerOf(w, r, h);
    SeatsAgree(w, pic, rts, cs, r, h);
    IsRunningAgrees(SeatOf(w, r, h), SeatIn(pic, r, c), rts, r, h);
    SeatRepainted(w, pic, rts, cs, r, h,
      IsRunningSeat(SeatOf(w, r, h), r, h).0, IsRunningSeat(SeatIn(pic, r, c), rts[r], h).0);
  }

  /** The view of a runtime that has forgotten a handle. */
  function Forgotten(v: RuntimeView, h: Handle): RuntimeView { v.(controllers := v.controllers - {h}) }

  lemma ForgetPictured(
    w: World, pic: Picture, rts: seq<Runtime>, cs: seq<CoreController>, r: RuntimeId, h: Handle)
    requires Pictures(w, pic, rts, cs) && r < |rts| && r in w.runtimes
    ensures Pictures(Forget(w, r, h), pic.(runtimes := pic.runtimes[r := Forgotten(pic.runtimes[r], h)]), rts, cs)
  {
    hide ProcessIs, RuntimeIs;
    var s, v := w.runtimes[r], pic.runtimes[r];
    var w' := Forget(w, r, h);
    ForgottenIs(s, v, cs, h);
    SameSize(w.runtimes, r, s.(controllers := s.controllers - {h}));
    assert forall q: nat :: q in w'.runtimes <==> q in w.runtimes;
  }

  lemma ForgottenIs(s: RuntimeState, v: RuntimeView, cs: seq<CoreController>, h: Handle)
    requires RuntimeIs(s, v, cs)
    ensures RuntimeIs(s.(controllers := s.controllers - {h}), Forgotten(v, h), cs)
  {
  }

  lemma {:induction false} DestroyPictured(
    w: World, pic: Picture, rts: seq<Runtime>, cs: seq<CoreController>, r: RuntimeId, h: Handle, closeOk: bool)
    requires DifferentRuntimes(rts) && Pictures(w, pic, rts, cs) && r < |rts| && r in w.runtimes && Known(w, r, h)
    requires ControllerOf(w, r, h) < |cs|
    ensures var c := ControllerOf(w, r, h);
      var a, b := SessionLease.DestroyController(w, r, h, closeOk), DestroySeat(SeatIn(pic, r, c), rts[r], h, closeOk);
      var v := Forgotten(pic.runtimes[r].(active := b.0.active), h);
      Pictures(a.0, Painted(pic, r, v, c, b.0), rts, cs) && a.1 == b.1
  {
    hide DestroySeat, Pictures, WithSeat, Known, SeatIs, Forget, Forgotten;
    var c := ControllerOf(w, r, h);
    SeatsAgree(w, pic, rts, cs, r, h);
    var a := DestroySeat(SeatOf(w, r, h), r, h, closeOk);
    var b := DestroySeat(SeatIn(pic, r, c), rts[r], h, closeOk);
    DestroyAgrees(SeatOf(w, r, h), SeatIn(pic, r, c), rts, r, h, closeOk);
    SeatRepainted(w, pic, rts, cs, r, h, a.0, b.0);
    KeepsRuntimes(w, r, h, a.0);
    var painted := Repainted(pic, r, c, b.0);
    ForgetPictured(WithSeat(w, r, h, a.0), painted, rts, cs, r, h);
    assert painted.runtimes[r := Forgotten(painted.runtimes[r], h)]
        == pic.runtimes[r := Forgotten(pic.runtimes[r].(active := b.0.active), h)];
  }

  lemma KeepsRuntimes(w: World, r: RuntimeId, h: Handle, s: Seat<RuntimeId>)
    requires r in w.runtimes && Known(w, r, h)
    ensures r in WithSeat(w, r, h, s).runtimes
  {
  }

  lemma InitializePictured(
    w: World, pic: Picture, rts: seq<Runtime>, cs: seq<CoreController>, r: RuntimeId, directory: Option<string>)
    requires Pictures(w, pic, rts, cs) && r < |rts| && r in w.runtimes
    ensures var (w', reply) := SessionLease.InitializeAssets(w, r, directory);
      && (reply.Success? <==> directory.Some? && directory.value != "" && pic.process.activeRuntime.None?)
      && (reply.Failure? ==> w' == w)
      && (reply.Failure? ==>
            reply.error == (
              if directory.None? || directory.value == "" then BadDirectory
              else AssetsInUse(pic.process.activeHandle)))
      && (reply.Success? ==>
            reply.value &&
            Pictures(
              w',
              Picture(
                pic.process.(assetOwner := Some(rts[r]), assetDirectory := directory.value),
                pic.runtimes[r := pic.runtimes[r].(assetDir := directory.value)],
                pic.controllers),
              rts, cs))
  {
    hide RuntimeIs;
    if directory.Some? && directory.value != "" && pic.process.activeRuntime.None? {
      var w' := SessionLease.InitializeAssets(w, r, directory).0;
      DirectoryIs(w.runtimes[r], pic.runtimes[r], cs, directory.value);
      SameSize(w.runtimes, r, w.runtimes[r].(assetDir := directory.value));
      assert forall q: nat :: q in w'.runtimes <==> q in w.runtimes;
    }
  }

  lemma DirectoryIs(s: RuntimeState, v: RuntimeView, cs: seq<CoreController>, directory: string)
    requires RuntimeIs(s, v, cs)
    ensures RuntimeIs(s.(assetDir := directory), v.(assetDir := directory), cs)
  {
  }

  /** A new controller has a number of its own, so no handle shares it. */
  lemma CreatedIs(s: RuntimeState, v: RuntimeView, cs: seq<CoreController>, h: Handle, c: CoreController)
    requires RuntimeIs(s, v, cs) && h != 0
    ensures RuntimeIs(
      s.(nextHandle := h, controllers := s.controllers[h := |cs|]),
      v.(nextHandle := h, controllers := v.controllers[h := c]), cs + [c])
  {
  }

  lemma MoreControllers(s: RuntimeState, v: RuntimeView, cs: seq<CoreController>, c: CoreController)
    requires RuntimeIs(s, v, cs)
    ensures RuntimeIs(s, v, cs + [c])
  {
  }

  lemma CreatePictured(
    w: World, pic: Picture, rts: seq<Runtime>, cs: seq<CoreController>, r: RuntimeId, c: CoreController)
    requires Pictures(w, pic, rts, cs) && r < |rts| && r in w.runtimes
    ensures var h, v := NextHandle(pic.runtimes[r].nextHandle), pic.runtimes[r];
      Pictures(
        SessionLease.CreateController(w, r),
        Picture(
          pic.process,
          pic.runtimes[r := v.(nextHandle := h, controllers := v.controllers[h := c])],
          pic.controllers + [IDLE]),
        rts, cs + [c])
  {
    hide RuntimeIs, ProcessIs;
    var s, v, h := w.runtimes[r], pic.runtimes[r], NextHandle(pic.runtimes[r].nextHandle);
    SameNext(s, v, cs);
    CreatedIs(s, v, cs, h, c);
    forall q | q in w.runtimes ensures RuntimeIs(w.runtimes[q], pic.runtimes[q], cs + [c]) {
      MoreControllers(w.runtimes[q], pic.runtimes[q], cs, c);
    }
    SameSize(w.runtimes, r, s.(nextHandle := h, controllers := s.controllers[h := |cs|]));
    var w' := SessionLease.CreateController(w, r);
    assert forall q: nat :: q in w'.runtimes <==> q in w.runtimes;
  }

  lemma SameNext(s: RuntimeState, v: RuntimeView, cs: seq<CoreController>)
    requires RuntimeIs(s, v, cs)
    ensures s.nextHandle == v.nextHandle
  {
  }

  lemma MoreRuntimes(a: Process<RuntimeId>, b: Process<Runtime>, rts: seq<Runtime>, r: Runtime)
    requires ProcessIs(a, b, rts)
    ensures ProcessIs(a, b, rts + [r])
  {
  }

  lemma NewRuntimeIs(cs: seq<CoreController>)
    ensures RuntimeIs(RuntimeState(map[], 0, 0, ""), RuntimeView(map[], 0, 0, ""), cs)
  {
  }

  lemma NewRuntimePictured(w: World, pic: Picture, rts: seq<Runtime>, cs: seq<CoreController>, r: Runtime)
    requires Pictures(w, pic, rts, cs)
    ensures Pictures(
      SessionLease.NewRuntime(w), pic.(runtimes := pic.runtimes + [RuntimeView(map[], 0, 0, "")]), rts + [r], cs)
  {
    hide ProcessIs, RuntimeIs;
    MoreRuntimes(w.process, pic.process, rts, r);
    NewRuntimeIs(cs);
    var n, blank, view := |rts|, RuntimeState(map[], 0, 0, ""), RuntimeView(map[], 0, 0, "");
    assert SessionLease.NewRuntime(w) == w.(runtimes := w.runtimes[n := blank]);
    RuntimesGrow(w.runtimes, pic.runtimes, cs, blank, view);
  }

  lemma RuntimesGrow(
    m: map<RuntimeId, RuntimeState>, views: seq<RuntimeView>, cs: seq<CoreController>, s: RuntimeState, v: RuntimeView)
    requires |m| == |views| && forall r: nat :: r in m <==> r < |views|
    requires (forall r :: r in m ==> RuntimeIs(m[r], views[r], cs)) && RuntimeIs(s, v, cs)
    ensures var m' := m[|views| := s];
      && |m'| == |views| + 1 && (forall r: nat :: r in m' <==> r < |views| + 1)
      && (forall r :: r in m' ==> RuntimeIs(m'[r], (views + [v])[r], cs))
  {
    hide RuntimeIs;
    OneMore(m, |views|, s);
  }

  lemma OneMore<A, B>(m: map<A, B>, k: A, v: B)
    requires k !in m
    ensures |m[k := v]| == |m| + 1
  {
    assert m[k := v].Keys == m.Keys + {k};
    assert |m[k := v].Keys| == |m[k := v]| && |m.Keys| == |m|;
  }

  lemma EmptyIsPictured(pic: Picture)
    requires pic == Picture(Process(None, "", None, 0, None, None, None, 0), [], [])
    ensures Pictures(INITIAL, pic, [], [])
  {
    var w := INITIAL;
    assert |w.runtimes| == 0 && |pic.runtimes| == 0 && |pic.controllers| == 0;
  }

  // ---------- The objects ----------

  /** Only runtime `r`, controller `c` and the process may look different. */
  ghost predicate AllBut(before: Picture, after: Picture, r: nat, c: nat) {
    && r < |before.runtimes| == |after.runtimes| && c < |before.controllers| == |after.controllers|
    && (forall q :: 0 <= q < |before.runtimes| && q != r ==> after.runtimes[q] == before.runtimes[q])
    && (forall d :: 0 <= d < |before.controllers| && d != c ==> after.controllers[d] == before.controllers[d])
  }

  lemma PaintedIs(before: Picture, after: Picture, r: nat, c: nat)
    requires AllBut(before, after, r, c)
    ensures after == Painted(before, r, after.runtimes[r], c, SeatIn(after, r, c))
  {
  }

  /** Handle `h` of runtime `r` is an object among `cs`, at `c`. */
  ghost predicate Holds(rts: seq<Runtime>, cs: seq<CoreController>, r: nat, h: Handle, c: nat)
    reads rts
  {
    && DifferentRuntimes(rts) && DifferentControllers(cs)
    && r < |rts| && c < |cs| && rts[r].Valid() && h in rts[r].controllers && rts[r].controllers[h] == cs[c]
  }

  /** A call on a known handle does to the picture what it does to the seat. */
  method StopShown(
    p: CoreProcess, rts: seq<Runtime>, ghost cs: seq<CoreController>, r: RuntimeId, h: Handle, ghost c: nat,
    closeOk: bool)
    returns (reply: Reply)
    requires Holds(rts, cs, r, h, c)
    modifies p, rts[r], cs[c]
    ensures var pic := old(PictureOf(p, rts, cs));
      var after := StopSeat(SeatIn(pic, r, c), rts[r], h, closeOk);
      PictureOf(p, rts, cs) == Repainted(pic, r, c, after.0) && reply == after.1
  {
    hide StopSeat, Painted;
    ghost var before := PictureOf(p, rts, cs);
    reply := rts[r].Stop(p, h, closeOk);
    PaintedIs(before, PictureOf(p, rts, cs), r, c);
  }

  method IsRunningShown(
    p: CoreProcess, rts: seq<Runtime>, ghost cs: seq<CoreController>, r: RuntimeId, h: Handle, ghost c: nat)
    returns (reply: Reply)
    requires Holds(rts, cs, r, h, c)
    modifies p, rts[r], cs[c]
    ensures var pic := old(PictureOf(p, rts, cs));
      var after := IsRunningSeat(SeatIn(pic, r, c), rts[r], h);
      PictureOf(p, rts, cs) == Repainted(pic, r, c, after.0) && reply == after.1
  {
    hide IsRunningSeat, Painted;
    ghost var before := PictureOf(p, rts, cs);
    reply := rts[r].IsRunning(p, h);
    PaintedIs(before, PictureOf(p, rts, cs), r, c);
  }

  method StartShown(
    p: CoreProcess, rts: seq<Runtime>, ghost cs: seq<CoreController>, r: RuntimeId, h: Handle, ghost c: nat,
    config: string, fd: int, outcome: StartOutcome)
    returns (reply: Reply)
    requires Holds(rts, cs, r, h, c)
    requires Text.TrimSpace(config) != "" && fd >= 0 && rts[r].OwnsAssets(p)
    modifies p, rts[r], cs[c]
    ensures var pic := old(PictureOf(p, rts, cs));
      var after := StartSeat(SeatIn(pic, r, c), rts[r], h, fd, outcome);
      PictureOf(p, rts, cs) == Repainted(pic, r, c, after.0) && reply == after.1
  {
    hide StartSeat, Painted, Text.TrimSpace;
    ghost var before := PictureOf(p, rts, cs);
    reply := rts[r].Start(p, h, config, fd, outcome);
    PaintedIs(before, PictureOf(p, rts, cs), r, c);
  }

  method DestroyShown(
    p: CoreProcess, rts: seq<Runtime>, ghost cs: seq<CoreController>, r: RuntimeId, h: Handle, ghost c: nat,
    closeOk: bool)
    returns (reply: Reply)
    requires Holds(rts, cs, r, h, c)
    modifies p, rts[r], cs[c]
    ensures var pic := old(PictureOf(p, rts, cs));
      var after := DestroySeat(SeatIn(pic, r, c), rts[r], h, closeOk);
      var v := Forgotten(pic.runtimes[r].(active := after.0.active), h);
      PictureOf(p, rts, cs) == Painted(pic, r, v, c, after.0) && reply == after.1
  {
    hide DestroySeat, Painted;
    ghost var before := PictureOf(p, rts, cs);
    reply := rts[r].DestroyController(p, h, closeOk);
    PaintedIs(before, PictureOf(p, rts, cs), r, c);
  }

  /** What a mirrored world says of one handle is so of the objects. */
  lemma MirroredHandle(
    w: World, p: CoreProcess, rts: seq<Runtime>, cs: seq<CoreController>, r: RuntimeId, h: Handle)
    requires Mirrors(w, p, rts, cs) && r < |rts|
    ensures r in w.runtimes && rts[r].Valid()
    ensures Known(w, r, h) <==> h in rts[r].controllers
    ensures Known(w, r, h) ==> Holds(rts, cs, r, h, ControllerOf(w, r, h))
    ensures rts[r].OwnsAssets(p) <==> w.process.assetOwner == Some(r) && w.process.assetDirectory != ""
  {
    var pic := PictureOf(p, rts, cs);
    KnownIsRegistered(w, pic, rts, cs, r, h);
    assert RuntimeIs(w.runtimes[r], pic.runtimes[r], cs);
    SameNumber(r, rts, w.process.assetOwner, pic.process.assetOwner);
  }

  method StopUnknown(
    p: CoreProcess, rts: seq<Runtime>, ghost cs: seq<CoreController>, r: RuntimeId, h: Handle, closeOk: bool)
    returns (reply: Reply)
    requires r < |rts| && DifferentRuntimes(rts) && rts[r].Valid() && h !in rts[r].controllers
    modifies p, rts[r]
    ensures PictureOf(p, rts, cs) == old(PictureOf(p, rts, cs)) && reply == Failure(ControllerNotFound)
  {
    ghost var before := PictureOf(p, rts, cs);
    reply := rts[r].Stop(p, h, closeOk);
    assert PictureOf(p, rts, cs) == before;
  }

  method Stop(
    ghost w: World, p: CoreProcess, rts: seq<Runtime>, ghost cs: seq<CoreController>, r: RuntimeId, h: Handle,
    closeOk: bool)
    returns (reply: Reply)
    requires Mirrors(w, p, rts, cs) && r < |rts| && r in w.runtimes
    modifies p, rts, cs
    ensures var after := SessionLease.Stop(w, r, h, closeOk); Mirrors(after.0, p, rts, cs) && reply == after.1
  {
    hide Pictures, RuntimeIs, ProcessIs, StopSeat, PictureOf, Repainted, WithSeat;
    MirroredHandle(w, p, rts, cs, r, h);
    if h in rts[r].controllers {
      StopPictured(w, PictureOf(p, rts, cs), rts, cs, r, h, closeOk);
      reply := StopShown(p, rts, cs, r, h, ControllerOf(w, r, h), closeOk);
    } else {
      reply := StopUnknown(p, rts, cs, r, h, closeOk);
    }
  }

  method DestroyUnknown(
    p: CoreProcess, rts: seq<Runtime>, ghost cs: seq<CoreController>, r: RuntimeId, h: Handle, closeOk: bool)
    returns (reply: Reply)
    requires r < |rts| && DifferentRuntimes(rts) && rts[r].Valid() && h !in rts[r].controllers
    modifies p, rts[r]
    ensures PictureOf(p, rts, cs) == old(PictureOf(p, rts, cs)) && reply == Failure(ControllerNotFound)
  {
    ghost var before := PictureOf(p, rts, cs);
    reply := rts[r].DestroyController(p, h, closeOk);
    assert PictureOf(p, rts, cs) == before;
  }

  method DestroyController(
    ghost w: World, p: CoreProcess, rts: seq<Runtime>, ghost cs: seq<CoreController>, r: RuntimeId, h: Handle,
    closeOk: bool)
    returns (reply: Reply)
    requires Mirrors(w, p, rts, cs) && r < |rts| && r in w.runtimes
    modifies p, rts, cs
    ensures var after := SessionLease.DestroyController(w, r, h, closeOk);
      Mirrors(after.0, p, rts, cs) && reply == after.1
  {
    hide Pictures, RuntimeIs, ProcessIs, DestroySeat, PictureOf, Painted, WithSeat, Forget, Forgotten;
    MirroredHandle(w, p, rts, cs, r, h);
    if h in rts[r].controllers {
      DestroyPictured(w, PictureOf(p, rts, cs), rts, cs, r, h, closeOk);
      reply := DestroyShown(p, rts, cs, r, h, ControllerOf(w, r, h), closeOk);
    } else {
      reply := DestroyUnknown(p, rts, cs, r, h, closeOk);
    }
  }

  method IsRunningUnknown(p: CoreProcess, rts: seq<Runtime>, ghost cs: seq<CoreController>, r: RuntimeId, h: Handle)
    returns (reply: Reply)
    requires r < |rts| && DifferentRuntimes(rts) && rts[r].Valid() && h !in rts[r].controllers
    modifies p, rts[r]
    ensures PictureOf(p, rts, cs) == old(PictureOf(p, rts, cs)) && reply == Failure(ControllerNotFound)
  {
    ghost var before := PictureOf(p, rts, cs);
    reply := rts[r].IsRunning(p, h);
    assert PictureOf(p, rts, cs) == before;
  }

  method IsRunning(
    ghost w: World, p: CoreProcess, rts: seq<Runtime>, ghost cs: seq<CoreController>, r: RuntimeId, h: Handle)
    returns (reply: Reply)
    requires Mirrors(w, p, rts, cs) && r < |rts| && r in w.runtimes
    modifies p, rts, cs
    ensures var after := SessionLease.IsRunning(w, r, h); Mirrors(after.0, p, rts, cs) && reply == after.1
  {
    hide Pictures, RuntimeIs, ProcessIs, IsRunningSeat, PictureOf, Repainted, WithSeat;
    MirroredHandle(w, p, rts, cs, r, h);
    if h in rts[r].controllers {
      IsRunningPictured(w, PictureOf(p, rts, cs), rts, cs, r, h);
      reply := IsRunningShown(p, rts, cs, r, h, ControllerOf(w, r, h));
    } else {
      reply := IsRunningUnknown(p, rts, cs, r, h);
    }
  }

  /** A start that is refused before the controller is asked. */
  ghost predicate RefusesStart(p: CoreProcess, r: Runtime, h: Handle, config: string, fd: int)
    reads p, r
  {
    Text.TrimSpace(config) == "" || fd < 0 || !r.OwnsAssets(p) || h !in r.controllers
  }

  method StartRefused(
    p: CoreProcess, rts: seq<Runtime>, ghost cs: seq<CoreController>, r: RuntimeId, h: Handle, ghost c: nat,
    config: string, fd: int, outcome: StartOutcome)
    returns (reply: Reply)
    requires r < |rts| && DifferentRuntimes(rts) && rts[r].Valid() && RefusesStart(p, rts[r], h, config, fd)
    requires h in rts[r].controllers ==> Holds(rts, cs, r, h, c)
    modifies p, rts[r], if h in rts[r].controllers then {rts[r].controllers[h]} else {}
    ensures PictureOf(p, rts, cs) == old(PictureOf(p, rts, cs))
    ensures reply == Failure(
      if Text.TrimSpace(config) == "" then BlankConfiguration
      else if fd < 0 then NegativeDescriptor
      else if !old(rts[r].OwnsAssets(p)) then AssetsNotInitialized
      else ControllerNotFound)
  {
    hide Text.TrimSpace, StartSeat, SeatIn;
    ghost var before := PictureOf(p, rts, cs);
    reply := rts[r].Start(p, h, config, fd, outcome);
    ghost var after := PictureOf(p, rts, cs);
    if h in rts[r].controllers {
      assert cs[c].State() == before.controllers[c];
      assert forall d :: 0 <= d < |cs| && d != c ==> after.controllers[d] == before.controllers[d];
    }
    assert after == before;
  }

  method Start(
    ghost w: World, p: CoreProcess, rts: seq<Runtime>, ghost cs: seq<CoreController>, r: RuntimeId, h: Handle,
    config: string, fd: int, outcome: StartOutcome)
    returns (reply: Reply)
    requires Mirrors(w, p, rts, cs) && r < |rts| && r in w.runtimes
    modifies p, rts, cs
    ensures var after := SessionLease.Start(w, r, h, config, fd, outcome);
      Mirrors(after.0, p, rts, cs) && reply == after.1
  {
    hide Pictures, RuntimeIs, ProcessIs, StartSeat, PictureOf, Repainted, WithSeat, Text.TrimSpace;
    MirroredHandle(w, p, rts, cs, r, h);
    ghost var c := if Known(w, r, h) then ControllerOf(w, r, h) else 0;
    if Text.TrimSpace(config) != "" && fd >= 0
      && p.assetRuntime == Some(rts[r]) && p.assetDirectory != "" && h in rts[r].controllers
    {
      StartPictured(w, PictureOf(p, rts, cs), rts, cs, r, h, config, fd, outcome);
      reply := StartShown(p, rts, cs, r, h, c, config, fd, outcome);
    } else {
      reply := StartRefused(p, rts, cs, r, h, c, config, fd, outcome);
    }
  }

  method InitializeShown(
    p: CoreProcess, rts: seq<Runtime>, ghost cs: seq<CoreController>, r: RuntimeId, directory: Option<string>)
    returns (reply: Reply)
    requires r < |rts| && DifferentRuntimes(rts)
    modifies p, rts[r]
    ensures var before, after := old(PictureOf(p, rts, cs)), PictureOf(p, rts, cs);
      && (reply.Success? <==> directory.Some? && directory.value != "" && before.process.activeRuntime.None?)
      && (reply.Failure? ==> after == before)
      && (reply.Failure? ==>
            reply.error == (
              if directory.None? || directory.value == "" then BadDirectory
              else AssetsInUse(before.process.activeHandle)))
      && (reply.Success? ==>
            reply.value && after == Picture(
              before.process.(assetOwner := Some(rts[r]), assetDirectory := directory.value),
              before.runtimes[r := before.runtimes[r].(assetDir := directory.value)],
              before.controllers))
  {
    ghost var before := PictureOf(p, rts, cs);
    reply := rts[r].InitializeAssets(p, directory);
    ghost var after := PictureOf(p, rts, cs);
    assert after.controllers == before.controllers;
    assert forall q :: 0 <= q < |rts| && q != r ==> after.runtimes[q] == before.runtimes[q];
    if reply.Success? {
      assert after.runtimes == before.runtimes[r := before.runtimes[r].(assetDir := directory.value)];
    } else {
      assert after.runtimes == before.runtimes;
    }
  }

  method InitializeAssets(
    ghost w: World, p: CoreProcess, rts: seq<Runtime>, ghost cs: seq<CoreController>, r: RuntimeId,
    directory: Option<string>)
    returns (reply: Reply)
    requires Mirrors(w, p, rts, cs) && r < |rts| && r in w.runtimes
    modifies p, rts
    ensures var after := SessionLease.InitializeAssets(w, r, directory);
      Mirrors(after.0, p, rts, cs) && reply == after.1
  {
    hide Pictures, PictureOf, SessionLease.InitializeAssets;
    ghost var before := PictureOf(p, rts, cs);
    SameCount(w, before, rts, cs);
    InitializePictured(w, before, rts, cs, r, directory);
    reply := InitializeShown(p, rts, cs, r, directory);
    if reply.Success? {
      assert SessionLease.InitializeAssets(w, r, directory).1 == Success(true);
    } else {
      assert SessionLease.InitializeAssets(w, r, directory).1 == reply;
    }
  }

  lemma SameCount(w: World, pic: Picture, rts: seq<Runtime>, cs: seq<CoreController>)
    requires Pictures(w, pic, rts, cs)
    ensures |pic.runtimes| == |rts| && |pic.controllers| == |cs|
  {
  }

  method CreateShown(p: CoreProcess, rts: seq<Runtime>, ghost cs: seq<CoreController>, r: RuntimeId)
    returns (h: Handle, ghost c: CoreController)
    requires r < |rts| && DifferentRuntimes(rts) && rts[r].Valid()
    modifies rts[r]
    ensures fresh(c)
    ensures var before, after := old(PictureOf(p, rts, cs)), PictureOf(p, rts, cs + [c]);
      var v := before.runtimes[r];
      && h == NextHandle(v.nextHandle)
      && after == Picture(
           before.process,
           before.runtimes[r := v.(nextHandle := h, controllers := v.controllers[h := c])],
           before.controllers + [IDLE])
  {
    ghost var before := PictureOf(p, rts, cs);
    h := rts[r].CreateController();
    c := rts[r].controllers[h];
    ghost var after, v := PictureOf(p, rts, cs + [c]), before.runtimes[r];
    assert forall q :: 0 <= q < |rts| && q != r ==> after.runtimes[q] == before.runtimes[q];
    assert after.runtimes == before.runtimes[r := v.(nextHandle := h, controllers := v.controllers[h := c])];
    assert after.controllers == before.controllers + [IDLE];
  }

  lemma MirroredRuntime(w: World, p: CoreProcess, rts: seq<Runtime>, cs: seq<CoreController>, r: RuntimeId)
    requires Mirrors(w, p, rts, cs) && r < |rts|
    ensures r in w.runtimes && rts[r].Valid() && w.runtimes[r].nextHandle == rts[r].nextHandle
  {
    MirroredHandle(w, p, rts, cs, r, 0);
    SameNext(w.runtimes[r], PictureOf(p, rts, cs).runtimes[r], cs);
  }

  lemma StillDifferentControllers(cs: seq<CoreController>, c: CoreController)
    requires DifferentControllers(cs) && c !in cs
    ensures DifferentControllers(cs + [c])
  {
  }

  lemma StillDifferentRuntimes(rts: seq<Runtime>, r: Runtime)
    requires DifferentRuntimes(rts) && r !in rts
    ensures DifferentRuntimes(rts + [r])
  {
  }

  method CreateController(
    ghost w: World, p: CoreProcess, rts: seq<Runtime>, ghost cs: seq<CoreController>, r: RuntimeId)
    returns (h: Handle, ghost more: seq<CoreController>)
    requires Mirrors(w, p, rts, cs) && r < |rts| && r in w.runtimes
    modifies rts
    ensures Mirrors(SessionLease.CreateController(w, r), p, rts, more)
    ensures forall c :: c in more ==> c in cs || fresh(c)
    ensures h == NextHandle(w.runtimes[r].nextHandle)
  {
    MirroredRuntime(w, p, rts, cs, r);
    NextShown(p, rts, cs, r);
    hide Pictures, PictureOf, SessionLease.CreateController, RuntimeIs, NextHandle;
    hide DifferentControllers, DifferentRuntimes;
    ghost var before := PictureOf(p, rts, cs);
    ghost var c;
    h, c := CreateShown(p, rts, cs, r);
    CreatePictured(w, before, rts, cs, r, c);
    StillDifferentControllers(cs, c);
    more := cs + [c];
  }

  lemma NextShown(p: CoreProcess, rts: seq<Runtime>, cs: seq<CoreController>, r: nat)
    requires r < |rts|
    ensures |PictureOf(p, rts, cs).runtimes| == |rts|
    ensures PictureOf(p, rts, cs).runtimes[r].nextHandle == rts[r].nextHandle
  {
  }

  method NewRuntimeShown(p: CoreProcess, rts: seq<Runtime>, ghost cs: seq<CoreController>) returns (r: Runtime)
    ensures fresh(r)
    ensures var before := old(PictureOf(p, rts, cs));
      PictureOf(p, rts + [r], cs) == before.(runtimes := before.runtimes + [RuntimeView(map[], 0, 0, "")])
  {
    ghost var before := PictureOf(p, rts, cs);
    r := new Runtime();
    ghost var after := PictureOf(p, rts + [r], cs);
    assert after.controllers == before.controllers;
    assert after.runtimes == before.runtimes + [RuntimeView(map[], 0, 0, "")];
  }

  method NewRuntime(ghost w: World, p: CoreProcess, rts: seq<Runtime>, ghost cs: seq<CoreController>)
    returns (more: seq<Runtime>)
    requires Mirrors(w, p, rts, cs)
    ensures Mirrors(SessionLease.NewRuntime(w), p, more, cs)
    ensures forall r :: r in more ==> r in rts || fresh(r)
  {
    hide Pictures, PictureOf, DifferentControllers, DifferentRuntimes, SessionLease.NewRuntime;
    ghost var before := PictureOf(p, rts, cs);
    var r := NewRuntimeShown(p, rts, cs);
    more := rts + [r];
    NewRuntimePictured(w, before, rts, cs, r);
    StillDifferentRuntimes(rts, r);
  }

  // ---------- Runs of the objects ----------

  /** What a host call returns to its caller. */
  datatype Answer = Silent | Issued(h: Handle) | Told(reply: Reply)

  function AnswerTo(w: World, op: Op): Answer {
    if op.OpNewRuntime? || op.r !in w.runtimes then Silent
    else
      match op
      case OpInitializeAssets(r, directory) => Told(SessionLease.InitializeAssets(w, r, directory).1)
      case OpCreate(r) => Issued(NextHandle(w.runtimes[r].nextHandle))
      case OpDestroy(r, h, closeOk) => Told(SessionLease.DestroyController(w, r, h, closeOk).1)
      case OpStart(r, h, config, fd, outcome) => Told(SessionLease.Start(w, r, h, config, fd, outcome).1)
      case OpStop(r, h, closeOk) => Told(SessionLease.Stop(w, r, h, closeOk).1)
      case OpIsRunning(r, h) => Told(SessionLease.IsRunning(w, r, h).1)
  }

  /** All answers of a run. */
  function Answers(ops: seq<Op>): seq<Answer> {
    if ops == [] then []
    else
      var before := ops[..|ops| - 1];
      Answers(before) + [AnswerTo(Run(before), ops[|ops| - 1])]
  }

  /** One host call on the objects is a step of the world they mirror, with the same answer. */
  method Perform(ghost w: World, p: CoreProcess, rts: seq<Runtime>, ghost cs: seq<CoreController>, op: Op)
    returns (answer: Answer, rts': seq<Runtime>, ghost cs': seq<CoreController>)
    requires Mirrors(w, p, rts, cs)
    modifies p, rts, cs
    ensures Mirrors(Step(w, op), p, rts', cs') && answer == AnswerTo(w, op)
    ensures forall r :: r in rts' ==> r in rts || fresh(r)
    ensures forall c :: c in cs' ==> c in cs || fresh(c)
  {
    WorldCounts(w, p, rts, cs);
    hide Mirrors, SessionLease.Start, SessionLease.Stop, SessionLease.DestroyController, SessionLease.IsRunning;
    hide SessionLease.InitializeAssets, SessionLease.CreateController, SessionLease.NewRuntime;
    answer, rts', cs' := Silent, rts, cs;
    if op.OpNewRuntime? {
      rts' := NewRuntime(w, p, rts, cs);
    } else if op.r < |rts| {
      var reply: Reply;
      match op
      case OpInitializeAssets(r, directory) =>
        reply := InitializeAssets(w, p, rts, cs, r, directory);
        answer := Told(reply);
      case OpCreate(r) =>
        var h;
        h, cs' := CreateController(w, p, rts, cs, r);
        answer := Issued(h);
      case OpDestroy(r, h, closeOk) =>
        reply := DestroyController(w, p, rts, cs, r, h, closeOk);
        answer := Told(reply);
      case OpStart(r, h, config, fd, outcome) =>
        reply := Start(w, p, rts, cs, r, h, config, fd, outcome);
        answer := Told(reply);
      case OpStop(r, h, closeOk) =>
        reply := Stop(w, p, rts, cs, r, h, closeOk);
        answer := Told(reply);
      case OpIsRunning(r, h) =>
        reply := IsRunning(w, p, rts, cs, r, h);
        answer := Told(reply);
    }
  }

  lemma WorldCounts(w: World, p: CoreProcess, rts: seq<Runtime>, cs: seq<CoreController>)
    requires Mirrors(w, p, rts, cs)
    ensures forall r: nat :: r in w.runtimes <==> r < |rts|
  {
  }

  /**
   Objects driven through any calls give the answers of the lease model and mirror its world after
   those calls, so whatever holds of every run of the lease holds of the objects.
   */
  method Drive(ops: seq<Op>)
    returns (answers: seq<Answer>, p: CoreProcess, rts: seq<Runtime>, ghost cs: seq<CoreController>)
    ensures answers == Answers(ops)
    ensures Mirrors(Run(ops), p, rts, cs)
  {
    hide Step, Mirrors, AnswerTo;
    p := new CoreProcess();
    answers, rts, cs := [], [], [];
    EmptyIsMirrored(p);
    for i := 0 to |ops|
      invariant answers == Answers(ops[..i])
      invariant Mirrors(Run(ops[..i]), p, rts, cs)
      invariant fresh(p)
      invariant forall r :: 0 <= r < |rts| ==> fresh(rts[r])
      invariant forall c :: 0 <= c < |cs| ==> fresh(cs[c])
    {
      assert ops[..i + 1][..i] == ops[..i];
      var answer;
      answer, rts, cs := Perform(Run(ops[..i]), p, rts, cs, ops[i]);
      answers := answers + [answer];
      assert forall r :: 0 <= r < |rts| ==> rts[r] in rts;
      assert forall c :: 0 <= c < |cs| ==> cs[c] in cs;
    }
    assert ops[..|ops|] == ops;
  }

  lemma EmptyIsMirrored(p: CoreProcess)
    requires p.State() == Process(None, "", None, 0, None, None, None, 0)
    ensures Mirrors(INITIAL, p, [], [])
  {
    EmptyIsPictured(PictureOf(p, [], []));
  }

  /** All that is said of the lease, said of the objects. */
  ghost predicate ObjectsAgree(p: CoreProcess, rts: seq<Runtime>, cs: seq<CoreController>)
    reads p, rts, cs
  {
    && (forall c, d :: 0 <= c < |cs| && 0 <= d < |cs| && cs[c].isRunning && cs[d].isRunning ==> c == d)
    && (forall r, h :: 0 <= r < |rts| && h in rts[r].controllers ==> HandleAgrees(p, rts[r], h, cs))
    && (forall r :: 0 <= r < |rts| && p.activeRuntime != Some(rts[r]) ==> rts[r].active == 0)
    && (p.activeRuntime.Some? ==> p.assetRuntime == p.activeRuntime && p.assetDirectory != "")
    && p.tunFd == p.v2rayTunFd && (p.tunFd.Some? ==> p.activeRuntime.Some?)
    && (p.activeLog.Some? <==> p.activeRuntime.Some?)
    && (forall c :: 0 <= c < |cs| && cs[c].isRunning ==> p.activeLog == cs[c].connLog)
  }

  /** A handle's controller runs exactly when the process, and when its runtime, names the handle. */
  ghost predicate HandleAgrees(p: CoreProcess, r: Runtime, h: Handle, cs: seq<CoreController>)
    requires h in r.controllers
    reads p, r, cs
  {
    exists c :: 0 <= c < |cs| && r.controllers[h] == cs[c]
      && (cs[c].isRunning <==> p.activeRuntime == Some(r) && p.activeHandle == h)
      && (cs[c].isRunning <==> r.active == h)
  }

  lemma HandleOfObjects(
    ops: seq<Op>, p: CoreProcess, rts: seq<Runtime>, cs: seq<CoreController>, r: nat, h: Handle)
    requires NeverReissues(ops) && Mirrors(Run(ops), p, rts, cs)
    requires r < |rts| && h in rts[r].controllers
    ensures HandleAgrees(p, rts[r], h, cs)
  {
    hide Run, NeverReissues;
    var w := Run(ops);
    LeaseRecordsAgree(ops);
    MirroredHandle(w, p, rts, cs, r, h);
    var c := ControllerOf(w, r, h);
    ControllerShown(w, p, rts, cs, c);
    ProcessShown(w, p, rts, cs, r);
    assert rts[r].controllers[h] == cs[c];
    assert Running(w, c) <==> cs[c].isRunning;
  }

  lemma ControllerShown(w: World, p: CoreProcess, rts: seq<Runtime>, cs: seq<CoreController>, c: nat)
    requires Mirrors(w, p, rts, cs) && c < |cs|
    ensures c in w.controllers && w.controllers[c] == cs[c].State()
  {
  }

  lemma ProcessShown(w: World, p: CoreProcess, rts: seq<Runtime>, cs: seq<CoreController>, r: nat)
    requires Mirrors(w, p, rts, cs) && r < |rts|
    ensures r in w.runtimes && w.runtimes[r].active == rts[r].active
    ensures w.process.activeRuntime == Some(r) <==> p.activeRuntime == Some(rts[r])
    ensures w.process.activeHandle == p.activeHandle
  {
    var pic := PictureOf(p, rts, cs);
    assert RuntimeIs(w.runtimes[r], pic.runtimes[r], cs);
    SameNumber(r, rts, w.process.activeRuntime, pic.process.activeRuntime);
  }

  lemma OwnerShown(w: World, p: CoreProcess, rts: seq<Runtime>, cs: seq<CoreController>)
    requires Mirrors(w, p, rts, cs)
    ensures w.process.activeRuntime.Some? <==> p.activeRuntime.Some?
    ensures w.process.assetOwner == w.process.activeRuntime ==> p.assetRuntime == p.activeRuntime
    ensures w.process.assetDirectory == p.assetDirectory && w.process.activeLog == p.activeLog
    ensures w.process.tunFd == p.tunFd && w.process.v2rayTunFd == p.v2rayTunFd
  {
  }

  /** After any calls that never reissue the leased handle, the objects agree on who holds the lease. */
  lemma {:induction false} ObjectsAgreeAfterEveryRun(
    ops: seq<Op>, p: CoreProcess, rts: seq<Runtime>, cs: seq<CoreController>)
    requires NeverReissues(ops) && Mirrors(Run(ops), p, rts, cs)
    ensures ObjectsAgree(p, rts, cs)
  {
    hide Run, NeverReissues, Mirrors, HandleAgrees;
    var w := Run(ops);
    LeaseRecordsAgree(ops);
    OwnerShown(w, p, rts, cs);
    forall c, d | 0 <= c < |cs| && 0 <= d < |cs| && cs[c].isRunning && cs[d].isRunning ensures c == d {
      ControllerShown(w, p, rts, cs, c);
      ControllerShown(w, p, rts, cs, d);
      assert Running(w, c) && Running(w, d);
    }
    forall c | 0 <= c < |cs| && cs[c].isRunning ensures p.activeLog == cs[c].connLog {
      ControllerShown(w, p, rts, cs, c);
      assert Running(w, c);
    }
    forall r, h | 0 <= r < |rts| && h in rts[r].controllers ensures HandleAgrees(p, rts[r], h, cs) {
      HandleOfObjects(ops, p, rts, cs, r, h);
    }
    forall r | 0 <= r < |rts| && p.activeRuntime != Some(rts[r]) ensures rts[r].active == 0 {
      ProcessShown(w, p, rts, cs, r);
    }
  }
}
