/**
 Dials against the TUN calls. Preparing, opening and closing hold one mutex, but the registered
 controller loads the stored binder without it, so a dial can fall between any two steps of a
 call. Here the calls of TunHost are split into the steps a dial can see.
 */
module TunDials {
  import opened Wrappers
  import TunHost

  /** A binder that was created, and whether it is switched on. */
  datatype BinderObject = BinderObject(tunnel: string, enabled: bool)

  /** Where the call that holds the mutex stands. */
  datatype Phase =
    | Free
    | Looking(open: bool, name: string)
    | Created(open: bool, name: string, next: nat)
    | Accepted(open: bool, name: string, next: nat)
    | Attaching(name: string, here: bool)
    | Dropping(closing: bool, name: string)
    | Disabled(closing: bool, name: string)
    | Ending

  /** A dial that has loaded a binder and not used it yet, and the tunnel that was up when it did. */
  datatype Dial = Dial(binder: nat, during: Option<nat>)

  datatype State = State(
    binders: seq<BinderObject>,
    stored: Option<nat>,
    registration: TunHost.Registration,
    session: Option<string>,
    tunnel: Option<nat>,
    tunnels: nat,
    phase: Phase,
    dials: map<nat, Dial>)

  const INITIAL := State([], None, TunHost.Unattempted, None, None, 0, Free, map[])

  /** The steps of the calls, with the outcomes of opaque ones, and the two steps of a dial. */
  datatype Op =
    | CallPrepare(name: string)
    | CallOpen(name: string)
    | CallClose
    | Look
    | Decide(accepted: bool)
    | Publish
    | Raise
    | Attach(ok: bool)
    | Disable
    | Clear
    | Finish
    | DialLoad(dial: nat)
    | DialUse(dial: nat)

  // ---------- One step ----------

  /** A binding that is there is kept; otherwise a new binder is made and switched on. */
  function LookIn(s: State): State
    requires s.phase.Looking?
  {
    var open, name := s.phase.open, s.phase.name;
    if s.stored.Some? then s.(phase := if open then Attaching(name, false) else Free)
    else s.(binders := s.binders + [BinderObject(name, true)], phase := Created(open, name, |s.binders|))
  }

  function DecideIn(s: State, accepted: bool): State
    requires s.phase.Created?
  {
    var r := TunHost.Register(s.registration, accepted);
    s.(registration := r,
       phase := if r == TunHost.Registered then Accepted(s.phase.open, s.phase.name, s.phase.next) else Free)
  }

  function PublishIn(s: State): State
    requires s.phase.Accepted?
  {
    s.(stored := Some(s.phase.next), phase := if s.phase.open then Attaching(s.phase.name, true) else Free)
  }

  /** A tunnel that could not be opened is gone again, and so is a binding made for it. */
  function AttachIn(s: State, ok: bool): State
    requires s.phase.Attaching?
  {
    if ok then s.(session := Some(s.phase.name), phase := Free)
    else s.(tunnel := None, phase := if s.phase.here then Dropping(false, s.phase.name) else Free)
  }

  function DisableIn(s: State): State
    requires s.phase.Dropping? && s.stored.Some? && s.stored.value < |s.binders|
  {
    var b := s.stored.value;
    s.(binders := s.binders[b := s.binders[b].(enabled := false)], phase := Disabled(s.phase.closing, s.phase.name))
  }

  /** The controller is called only once it is registered, and without a stored binder it does nothing. */
  predicate FindsBinder(s: State) { s.registration == TunHost.Registered && s.stored.Some? }

  function Step(s: State, op: Op): Option<State> {
    match op
    case CallPrepare(name) => if s.phase.Free? then Some(s.(phase := Looking(false, name))) else None
    case CallOpen(name) =>
      if !s.phase.Free? then None
      else if s.session.Some? then Some(s)
      else Some(s.(phase := Looking(true, name)))
    case CallClose =>
      if s.phase.Free? then Some(s.(phase := if s.stored.Some? then Dropping(true, "") else Ending)) else None
    case Look => if s.phase.Looking? then Some(LookIn(s)) else None
    case Decide(accepted) => if s.phase.Created? then Some(DecideIn(s, accepted)) else None
    case Publish => if s.phase.Accepted? then Some(PublishIn(s)) else None
    case Raise =>
      if s.phase.Attaching? && s.tunnel.None? then Some(s.(tunnel := Some(s.tunnels), tunnels := s.tunnels + 1))
      else None
    case Attach(ok) => if s.phase.Attaching? && (ok ==> s.tunnel.Some?) then Some(AttachIn(s, ok)) else None
    case Disable =>
      if s.phase.Dropping? && s.stored.Some? && s.stored.value < |s.binders| then Some(DisableIn(s)) else None
    case Clear =>
      if s.phase.Disabled? then Some(s.(stored := None, phase := if s.phase.closing then Ending else Free)) else None
    case Finish => if s.phase.Ending? then Some(s.(session := None, tunnel := None, phase := Free)) else None
    case DialLoad(d) =>
      if d in s.dials then None
      else Some(if FindsBinder(s) then s.(dials := s.dials[d := Dial(s.stored.value, s.tunnel)]) else s)
    case DialUse(d) => if d in s.dials then Some(s.(dials := s.dials - {d})) else None
  }

  /** Whether a dial is bound, once a step decides it. */
  function Outcome(s: State, op: Op): Option<bool> {
    match op
    case DialLoad(d) => if FindsBinder(s) then None else Some(false)
    case DialUse(d) =>
      if d in s.dials && s.dials[d].binder < |s.binders| then Some(s.binders[s.dials[d].binder].enabled) else None
    case _ => None
  }

  /** The state after an interleaving, if every step of it was possible. */
  function Run(ops: seq<Op>): Option<State> {
    if ops == [] then Some(INITIAL)
    else
      var before := Run(ops[..|ops| - 1]);
      if before.None? then None else Step(before.value, ops[|ops| - 1])
  }

  // ---------- What every step keeps ----------

  /** A binder that only the running call knows. */
  predicate Private(p: Phase, b: nat) { (p.Created? || p.Accepted?) && p.next == b }

  /** The stored binder is switched on unless it is just being released, and so is a private one. */
  ghost predicate BindersInv(s: State) {
    && (s.stored.Some? ==> s.stored.value < |s.binders| && s.registration == TunHost.Registered)
    && (s.stored.Some? ==> (s.binders[s.stored.value].enabled <==> !s.phase.Disabled?))
    && (s.phase.Created? || s.phase.Accepted? ==>
          && s.stored.None? && s.phase.next < |s.binders|
          && s.binders[s.phase.next] == BinderObject(s.phase.name, true))
    && (s.phase.Accepted? ==> s.registration == TunHost.Registered)
    && (s.phase.Attaching? || s.phase.Dropping? || s.phase.Disabled? ==> s.stored.Some?)
    && (s.phase.Ending? ==> s.stored.None?)
  }

  ghost predicate TunnelInv(s: State) {
    && (s.tunnel.Some? ==> s.tunnel.value < s.tunnels)
    && (s.tunnel.Some? && !s.phase.Ending? ==> s.stored.Some?)
    && (s.session.Some? ==> s.tunnel.Some?)
    && (s.tunnel.Some? && !s.phase.Attaching? ==> s.session.Some?)
    && (s.phase.Attaching? || (s.phase.Looking? && s.phase.open) ==> s.session.None?)
    && ((s.phase.Dropping? || s.phase.Disabled?) && !s.phase.closing ==> s.tunnel.None?)
  }

  /** A loaded binder is on exactly while it is stored; within one tunnel it is the one that is stored. */
  ghost predicate DialsInv(s: State) {
    forall d :: d in s.dials ==>
      && s.dials[d].binder < |s.binders| && !Private(s.phase, s.dials[d].binder)
      && (s.binders[s.dials[d].binder].enabled <==> s.stored == Some(s.dials[d].binder) && !s.phase.Disabled?)
      && (s.dials[d].during.Some? ==> s.dials[d].during.value < s.tunnels)
      && (s.dials[d].during.Some? && s.dials[d].during == s.tunnel && !s.phase.Ending? ==>
            s.stored == Some(s.dials[d].binder))
  }

  ghost predicate Inv(s: State) { BindersInv(s) && TunnelInv(s) && DialsInv(s) }

  lemma StepKeepsBinders(s: State, op: Op)
    requires BindersInv(s) && Step(s, op).Some?
    ensures BindersInv(Step(s, op).value)
  {
  }

  lemma StepKeepsTunnel(s: State, op: Op)
    requires BindersInv(s) && TunnelInv(s) && Step(s, op).Some?
    ensures TunnelInv(Step(s, op).value)
  {
  }

  lemma StepKeepsDials(s: State, op: Op)
    requires Inv(s) && Step(s, op).Some?
    ensures DialsInv(Step(s, op).value)
  {
  }

  lemma {:induction false} EveryInterleavingKeepsInv(ops: seq<Op>)
    requires Run(ops).Some?
    ensures Inv(Run(ops).value)
  {
    hide Step, BindersInv, TunnelInv, DialsInv;
    if ops == [] {
      InitialInv();
    } else {
      var before, op := ops[..|ops| - 1], ops[|ops| - 1];
      EveryInterleavingKeepsInv(before);
      StepKeepsBinders(Run(before).value, op);
      StepKeepsTunnel(Run(before).value, op);
      StepKeepsDials(Run(before).value, op);
    }
  }

  lemma InitialInv()
    ensures Inv(INITIAL)
  {
  }

  /** The step that takes the running call on, whatever opaque calls return. */
  ghost predicate CanGoOn(s: State) {
    && (s.phase.Free? ==> Step(s, CallClose).Some? && forall name :: Begins(s, name))
    && (s.phase.Looking? ==> Step(s, Look).Some?)
    && (s.phase.Created? ==> Step(s, Decide(true)).Some? && Step(s, Decide(false)).Some?)
    && (s.phase.Accepted? ==> Step(s, Publish).Some?)
    && (s.phase.Attaching? ==> Step(s, Attach(false)).Some? && (s.tunnel.None? ==> Step(s, Raise).Some?))
    && (s.phase.Attaching? && s.tunnel.Some? ==> Step(s, Attach(true)).Some?)
    && (s.phase.Dropping? ==> Step(s, Disable).Some?)
    && (s.phase.Disabled? ==> Step(s, Clear).Some?)
    && (s.phase.Ending? ==> Step(s, Finish).Some?)
  }

  ghost predicate Begins(s: State, name: string) {
    && Step(s, CallPrepare(name)) == Some(s.(phase := Looking(false, name)))
    && Step(s, CallOpen(name)) == Some(if s.session.Some? then s else s.(phase := Looking(true, name)))
  }

  /** No call gets stuck, and a dial can always be made, and used once it has a binder. */
  lemma NothingGetsStuck(ops: seq<Op>, d: nat)
    requires Run(ops).Some?
    ensures var s := Run(ops).value;
      && CanGoOn(s)
      && (d !in s.dials ==> Step(s, DialLoad(d)).Some?)
      && (d in s.dials ==>
            Step(s, DialUse(d)) == Some(s.(dials := s.dials - {d})) && Outcome(s, DialUse(d)).Some?)
  {
    hide Step, CanGoOn, BindersInv, TunnelInv, DialsInv, Outcome;
    EveryInterleavingKeepsInv(ops);
    CallGoesOn(Run(ops).value);
    DialGoesOn(Run(ops).value, d);
  }

  lemma CallGoesOn(s: State)
    requires BindersInv(s)
    ensures CanGoOn(s)
  {
    hide LookIn, DecideIn, PublishIn, AttachIn, DisableIn;
  }

  lemma DialGoesOn(s: State, d: nat)
    requires DialsInv(s)
    ensures d !in s.dials ==> Step(s, DialLoad(d)).Some?
    ensures d in s.dials ==> Step(s, DialUse(d)) == Some(s.(dials := s.dials - {d})) && Outcome(s, DialUse(d)).Some?
  {
  }

  // ---------- Which dials are bound ----------

  /** A Close that has begun to release the binding and has not ended the tunnel yet. */
  predicate Releasing(s: State) { (s.phase.Disabled? && s.phase.closing) || s.phase.Ending? }

  /** While a tunnel is up its binder is stored and switched on, exactly until a Close begins to release it. */
  lemma {:induction false} TunnelIsBoundExactlyWhen(ops: seq<Op>)
    requires Run(ops).Some? && Run(ops).value.tunnel.Some?
    ensures var s := Run(ops).value;
      FindsBinder(s) && s.stored.value < |s.binders| && s.binders[s.stored.value].enabled <==> !Releasing(s)
  {
    EveryInterleavingKeepsInv(ops);
  }

  /** A dial that has loaded a binder is bound exactly when it is stored still and not being released. */
  lemma {:induction false} DialIsBoundExactlyWhen(ops: seq<Op>, d: nat)
    requires Run(ops).Some? && d in Run(ops).value.dials
    ensures var s := Run(ops).value;
      Outcome(s, DialUse(d)) == Some(s.stored == Some(s.dials[d].binder) && !s.phase.Disabled?)
  {
    EveryInterleavingKeepsInv(ops);
  }

  /** While a tunnel is up, a dial finds no binder exactly after a Close has dropped it. */
  lemma {:induction false} DialFindsABinderExactlyWhen(ops: seq<Op>, d: nat)
    requires Run(ops).Some? && Run(ops).value.tunnel.Some?
    ensures Outcome(Run(ops).value, DialLoad(d)) == Some(false) <==> Run(ops).value.phase.Ending?
  {
    EveryInterleavingKeepsInv(ops);
  }

  /** A dial made within one tunnel is bound exactly when no Close has begun to release its binder by then. */
  lemma {:induction false} DialWithinATunnelIsBoundExactlyWhen(ops: seq<Op>, d: nat)
    requires Run(ops).Some? && d in Run(ops).value.dials
    requires Run(ops).value.tunnel.Some? && Run(ops).value.dials[d].during == Run(ops).value.tunnel
    ensures Outcome(Run(ops).value, DialUse(d)) == Some(!Releasing(Run(ops).value))
  {
    EveryInterleavingKeepsInv(ops);
  }

  // ---------- Dials that are not bound ----------

  lemma RunAppend(ops: seq<Op>, op: Op, s: State, t: State)
    requires Run(ops) == Some(s) && Step(s, op) == Some(t)
    ensures Run(ops + [op]) == Some(t)
  {
    assert (ops + [op])[..|ops|] == ops;
  }

  /** The steps of a Close up to the end of the tunnel. */
  lemma CloseRuns(ops: seq<Op>, s: State)
    requires Run(ops) == Some(s) && s.phase == Free && s.stored.Some? && s.stored.value < |s.binders|
    ensures var b := s.stored.value;
      var off := s.binders[b := s.binders[b].(enabled := false)];
      && Run(ops + [CallClose] + [Disable]) == Some(s.(binders := off, phase := Disabled(true, "")))
      && Run(ops + [CallClose] + [Disable] + [Clear]) == Some(s.(binders := off, stored := None, phase := Ending))
      && Run(ops + [CallClose] + [Disable] + [Clear] + [Finish])
           == Some(s.(binders := off, stored := None, session := None, tunnel := None, phase := Free))
  {
    hide Run;
    var b := s.stored.value;
    var off := s.binders[b := s.binders[b].(enabled := false)];
    var dropping := s.(phase := Dropping(true, ""));
    var disabled := s.(binders := off, phase := Disabled(true, ""));
    var ending := disabled.(stored := None, phase := Ending);
    RunAppend(ops, CallClose, s, dropping);
    RunAppend(ops + [CallClose], Disable, dropping, disabled);
    RunAppend(ops + [CallClose] + [Disable], Clear, disabled, ending);
    RunAppend(ops + [CallClose] + [Disable] + [Clear], Finish, ending,
              ending.(session := None, tunnel := None, phase := Free));
  }

  /**
   Whenever a tunnel is up and no call is running, a Close can begin and leave the tunnel up without
   its binding: a dial then uses a binder that is switched off, or finds none.
   */
  lemma DialDuringCloseIsNotBound(ops: seq<Op>, d: nat)
    requires Run(ops).Some? && Run(ops).value.phase.Free? && Run(ops).value.tunnel.Some? && d !in Run(ops).value.dials
    ensures var off := Run(ops + [CallClose] + [Disable] + [DialLoad(d)]);
      off.Some? && off.value.tunnel == Run(ops).value.tunnel && Outcome(off.value, DialUse(d)) == Some(false)
    ensures var gone := Run(ops + [CallClose] + [Disable] + [Clear]);
      gone.Some? && gone.value.tunnel == Run(ops).value.tunnel && Outcome(gone.value, DialLoad(d)) == Some(false)
  {
    hide Run;
    EveryInterleavingKeepsInv(ops);
    var s := Run(ops).value;
    CloseRuns(ops, s);
    var disabled := Run(ops + [CallClose] + [Disable]).value;
    RunAppend(ops + [CallClose] + [Disable], DialLoad(d), disabled, Step(disabled, DialLoad(d)).value);
  }

  function Opening(name: string): seq<Op> { [CallOpen(name), Look, Decide(true), Publish, Raise, Attach(true)] }

  /** The steps of an Open that makes its own binding. */
  lemma OpenRuns(ops: seq<Op>, s: State, name: string)
    requires Run(ops) == Some(s) && s.phase == Free && s.stored.None? && s.session.None? && s.tunnel.None?
    requires s.registration == TunHost.Registered
    ensures Run(ops + Opening(name)) == Some(
      s.(binders := s.binders + [BinderObject(name, true)],
         stored := Some(|s.binders|),
         session := Some(name),
         tunnel := Some(s.tunnels),
         tunnels := s.tunnels + 1))
  {
    hide Run;
    var n := |s.binders|;
    var looking := s.(phase := Looking(true, name));
    var created := s.(binders := s.binders + [BinderObject(name, true)], phase := Created(true, name, n));
    var accepted := created.(phase := Accepted(true, name, n));
    var attaching := accepted.(stored := Some(n), phase := Attaching(name, true));
    var raised := attaching.(tunnel := Some(s.tunnels), tunnels := s.tunnels + 1);
    RunAppend(ops, CallOpen(name), s, looking);
    RunAppend(ops + [CallOpen(name)], Look, looking, created);
    RunAppend(ops + [CallOpen(name)] + [Look], Decide(true), created, accepted);
    RunAppend(ops + [CallOpen(name)] + [Look] + [Decide(true)], Publish, accepted, attaching);
    RunAppend(ops + [CallOpen(name)] + [Look] + [Decide(true)] + [Publish], Raise, attaching, raised);
    RunAppend(ops + [CallOpen(name)] + [Look] + [Decide(true)] + [Publish] + [Raise], Attach(true), raised,
              raised.(session := Some(name), phase := Free));
    assert ops + [CallOpen(name)] + [Look] + [Decide(true)] + [Publish] + [Raise] + [Attach(true)]
        == ops + Opening(name);
  }

  /** A dial can also outlive its binder: it is not bound although the next tunnel is up with its binding in place. */
  lemma DialCanOutliveItsBinder(ops: seq<Op>, d: nat, name: string)
    requires Run(ops).Some? && Run(ops).value.phase.Free? && Run(ops).value.tunnel.Some? && d !in Run(ops).value.dials
    ensures var after := Run(ops + [DialLoad(d)] + [CallClose] + [Disable] + [Clear] + [Finish] + Opening(name));
      && after.Some? && !Releasing(after.value)
      && after.value.tunnel.Some? && after.value.tunnel != Run(ops).value.tunnel
      && Outcome(after.value, DialUse(d)) == Some(false)
  {
    hide Run;
    EveryInterleavingKeepsInv(ops);
    var s := Run(ops).value;
    var loaded := Step(s, DialLoad(d)).value;
    RunAppend(ops, DialLoad(d), s, loaded);
    CloseRuns(ops + [DialLoad(d)], loaded);
    var closed := ops + [DialLoad(d)] + [CallClose] + [Disable] + [Clear] + [Finish];
    OpenRuns(closed, Run(closed).value, name);
  }

  // ---------- The calls as a whole ----------

  /** What TunHost sees of a state. */
  function Abstract(s: State): TunHost.State {
    TunHost.State(
      if s.stored.Some? && s.stored.value < |s.binders|
      then Some(TunHost.Binding(s.binders[s.stored.value].tunnel, s.binders[s.stored.value].enabled)) else None,
      s.registration,
      s.session)
  }

  /** The call that a step completes, with the outcomes it met. */
  function Completed(s: State, op: Op): Option<TunHost.Op> {
    match op
    case CallOpen(name) =>
      if s.phase.Free? && s.session.Some? then Some(TunHost.Open(Some(name), true, true)) else None
    case Look =>
      if s.phase.Looking? && !s.phase.open && s.stored.Some? then Some(TunHost.Prepare(s.phase.name, true, true))
      else None
    case Decide(accepted) =>
      if !s.phase.Created? || TunHost.Register(s.registration, accepted) == TunHost.Registered then None
      else if s.phase.open then Some(TunHost.Open(Some(s.phase.name), accepted, true))
      else Some(TunHost.Prepare(s.phase.name, true, accepted))
    case Publish =>
      if s.phase.Accepted? && !s.phase.open then Some(TunHost.Prepare(s.phase.name, true, true)) else None
    case Attach(ok) =>
      if s.phase.Attaching? && (ok || !s.phase.here) then Some(TunHost.Open(Some(s.phase.name), true, ok)) else None
    case Clear =>
      if s.phase.Disabled? && !s.phase.closing then Some(TunHost.Open(Some(s.phase.name), true, false)) else None
    case Finish => if s.phase.Ending? then Some(TunHost.Close) else None
    case _ => None
  }

  /** The calls that an interleaving has completed, in order. */
  function Calls(ops: seq<Op>): seq<TunHost.Op> {
    if ops == [] then []
    else
      var before := ops[..|ops| - 1];
      if Run(before).None? then Calls(before)
      else
        match Completed(Run(before).value, ops[|ops| - 1])
        case None => Calls(before)
        case Some(call) => Calls(before) + [call]
  }

  /** The running call started from `t` and has put its own binding in place, or is about to. */
  ghost predicate OwnBinding(s: State, t: TunHost.State) {
    && t.binding.None? && t.session == s.session && s.registration == TunHost.Registered
    && t.registration != TunHost.Refused
  }

  /** `t` is the state before the running call, or the state itself when no call is running. */
  ghost predicate Refines(s: State, t: TunHost.State) {
    match s.phase
    case Free => Abstract(s) == t
    case Looking(_, _) => Abstract(s) == t
    case Created(_, _, _) => Abstract(s) == t
    case Accepted(_, _, _) => OwnBinding(s, t)
    case Attaching(name, here) =>
      if here then OwnBinding(s, t) && Abstract(s).binding == Some(TunHost.Binding(name, true)) else Abstract(s) == t
    case Dropping(closing, _) => if closing then Abstract(s) == t else OwnBinding(s, t)
    case Disabled(closing, _) =>
      if closing then t.session == s.session && t.registration == s.registration else OwnBinding(s, t)
    case Ending => t.session == s.session && t.registration == s.registration
  }

  function Then(t: TunHost.State, call: Option<TunHost.Op>): TunHost.State {
    if call.Some? then TunHost.Step(t, call.value) else t
  }

  lemma StepRefines(s: State, op: Op, t: TunHost.State)
    requires BindersInv(s) && TunnelInv(s) && Refines(s, t) && Step(s, op).Some?
    ensures Refines(Step(s, op).value, Then(t, Completed(s, op)))
  {
  }

  lemma TunHostAppend(calls: seq<TunHost.Op>, call: TunHost.Op)
    ensures TunHost.Run(calls + [call]) == TunHost.Step(TunHost.Run(calls), call)
  {
    assert (calls + [call])[..|calls|] == calls;
  }

  lemma {:induction false} InterleavingRefinesCalls(ops: seq<Op>)
    requires Run(ops).Some?
    ensures Refines(Run(ops).value, TunHost.Run(Calls(ops)))
  {
    hide Step, Completed, Refines, BindersInv, TunnelInv, DialsInv, TunHost.Run, TunHost.Step;
    if ops == [] {
      InitialRefines();
    } else {
      var before, op := ops[..|ops| - 1], ops[|ops| - 1];
      InterleavingRefinesCalls(before);
      EveryInterleavingKeepsInv(before);
      var s := Run(before).value;
      StepRefines(s, op, TunHost.Run(Calls(before)));
      if Completed(s, op).Some? {
        TunHostAppend(Calls(before), Completed(s, op).value);
      }
    }
  }

  lemma InitialRefines()
    ensures Refines(INITIAL, TunHost.Run([]))
  {
  }

  /** Whenever no call is running, the state is what the completed calls, each taken as a whole, make of it. */
  lemma {:induction false} CallsAreWhole(ops: seq<Op>)
    requires Run(ops).Some? && Run(ops).value.phase.Free?
    ensures Abstract(Run(ops).value) == TunHost.Run(Calls(ops))
  {
    InterleavingRefinesCalls(ops);
  }
}
