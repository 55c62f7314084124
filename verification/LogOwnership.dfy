/**
 Who owns the process-global log handler. Every new core instance puts its own log in that place,
 so a session installs its handler after creating its core, and a probe puts the session's
 handler back after creating its own.
 */
module LogOwnership {
  import opened Wrappers

  /** The log of some core, or the handler of the n-th session. */
  datatype Handler = CoreLog | SessionHandler(session: nat)

  /** How far the one session has come that the lease allows. */
  datatype Phase =
    | Idle
    | Created(session: nat)
    | Stored(session: nat)
    | Installed(session: nat)

  /** A probe between creating its core and having restored the handler. */
  datatype Probe = Replaced | Loaded(session: nat)

  datatype State = State(
    handler: Handler,
    active: Option<nat>,
    phase: Phase,
    sessions: nat,
    probes: map<nat, Probe>)

  const INITIAL := State(CoreLog, None, Idle, 0, map[])

  /** The atomic steps of sessions and probes. */
  datatype Op =
    | SessionNew
    | SessionNewFails(replaced: bool)
    | SessionStore
    | SessionRegister
    | SessionEnds
    | ProbeNew(probe: nat)
    | ProbeNewFails(replaced: bool)
    | ProbeLoad(probe: nat)
    | ProbeRegister(probe: nat)

  /** Forgetting the handler of a session that has stopped or failed to start. */
  function Clear(active: Option<nat>, session: nat): Option<nat> {
    if active == Some(session) then None else active
  }

  function Step(s: State, op: Op): Option<State> {
    match op
    case SessionNew =>
      if s.phase != Idle then None
      else Some(s.(handler := CoreLog, phase := Created(s.sessions), sessions := s.sessions + 1))
    case SessionNewFails(replaced) =>
      if s.phase != Idle then None else Some(if replaced then s.(handler := CoreLog) else s)
    case SessionStore =>
      if !s.phase.Created? then None
      else Some(s.(active := Some(s.phase.session), phase := Stored(s.phase.session)))
    case SessionRegister =>
      if !s.phase.Stored? then None
      else Some(s.(handler := SessionHandler(s.phase.session), phase := Installed(s.phase.session)))
    case SessionEnds =>
      if !s.phase.Installed? then None
      else Some(s.(active := Clear(s.active, s.phase.session), phase := Idle))
    case ProbeNew(p) =>
      if p in s.probes then None else Some(s.(handler := CoreLog, probes := s.probes[p := Replaced]))
    case ProbeNewFails(replaced) => Some(if replaced then s.(handler := CoreLog) else s)
    case ProbeLoad(p) =>
      if p !in s.probes || !s.probes[p].Replaced? then None
      else if s.active.None? then Some(s.(probes := s.probes - {p}))
      else Some(s.(probes := s.probes[p := Loaded(s.active.value)]))
    case ProbeRegister(p) =>
      if p !in s.probes || !s.probes[p].Loaded? then None
      else Some(s.(handler := SessionHandler(s.probes[p].session), probes := s.probes - {p}))
  }

  /** The state after a run, if every step of it was possible. */
  function Run(ops: seq<Op>): Option<State> {
    if ops == [] then Some(INITIAL)
    else
      var before := Run(ops[..|ops| - 1]);
      if before.None? then None else Step(before.value, ops[|ops| - 1])
  }

  // ---------- The handler as the sessions and probes change it ----------

  /** Two steps with nothing in between. */
  function Then(s: State, first: Op, second: Op): Option<State> {
    var between := Step(s, first);
    if between.None? then None else Step(between.value, second)
  }

  /** A whole restore: a probe that finds no stored handler is done after loading. */
  function WholeRestore(s: State, probe: nat): Option<State> {
    if s.active.None? then Step(s, ProbeLoad(probe)) else Then(s, ProbeLoad(probe), ProbeRegister(probe))
  }

  class GlobalLog {
    var active: Option<nat>
    var handler: Handler

    /** The two variables are those of the state `s` of sessions and probes. */
    ghost predicate Shows(s: State)
      reads this
    {
      active == s.active && handler == s.handler
    }

    constructor ()
      ensures Shows(INITIAL)
    {
      active, handler := None, CoreLog;
    }

    /** From a created session to an installed one: storing, then registering. */
    method Install(session: nat)
      modifies this
      ensures forall s: State :: old(Shows(s)) && s.phase == Created(session) ==>
        var after := Then(s, SessionStore, SessionRegister);
        after.Some? && after.value.phase == Installed(session) && Shows(after.value)
    {
      active := Some(session);
      handler := SessionHandler(session);
    }

    /** From a probe whose core has replaced the handler to one that is done. */
    method Restore()
      modifies this`handler
      ensures forall s: State, probe: nat :: old(Shows(s)) && probe in s.probes && s.probes[probe] == Replaced ==>
        var after := WholeRestore(s, probe);
        after.Some? && probe !in after.value.probes && Shows(after.value)
    {
      if active.Some? {
        handler := SessionHandler(active.value);
      }
    }

    /** From an installed session to none: the stored handler is forgotten only if it is that session's. */
    method ClearSession(session: nat)
      modifies this`active
      ensures forall s: State :: old(Shows(s)) && s.phase == Installed(session) ==>
        var after := Step(s, SessionEnds);
        after.Some? && after.value.phase == Idle && Shows(after.value)
    {
      if active == Some(session) {
        active := None;
      }
    }
  }

  /** A restore in one piece gives the handler back to the session that is installed, if no other probe is under way. */
  lemma RestoreGivesTheHandlerBack(ops: seq<Op>, probe: nat)
    requires Run(ops).Some? && Run(ops).value.phase.Installed?
    requires Run(ops).value.probes == map[probe := Replaced]
    ensures var after := WholeRestore(Run(ops).value, probe);
      after.Some? && Quiet(after.value) && after.value.handler == SessionHandler(Run(ops).value.phase.session)
  {
    ActiveBelongsToTheSession(ops);
    var s := Run(ops).value;
    assert s.probes[probe := Loaded(s.active.value)] - {probe} == map[];
  }

  // ---------- The stored handler ----------

  ghost predicate ActiveFollowsPhase(s: State) {
    && s.active == (if s.phase.Stored? || s.phase.Installed? then Some(s.phase.session) else None)
    && (s.phase != Idle ==> s.phase.session < s.sessions)
  }

  /** Whatever the probes do, the stored handler is that of the session being served, and of none otherwise. */
  lemma {:induction false} ActiveBelongsToTheSession(ops: seq<Op>)
    requires Run(ops).Some?
    ensures ActiveFollowsPhase(Run(ops).value)
  {
    if ops != [] {
      ActiveBelongsToTheSession(ops[..|ops| - 1]);
    }
  }

  // ---------- The global handler ----------

  /** A probe whose core went in and that has not restored the handler yet is under way. */
  ghost predicate Quiet(s: State) { s.phase.Installed? && s.probes == map[] }

  /** The step registers a handler it loaded when another session was being served. */
  predicate Stale(s: State, op: Op) {
    op.ProbeRegister? && op.probe in s.probes && s.probes[op.probe].Loaded?
    && s.active != Some(s.probes[op.probe].session)
  }

  /** The latest registration was stale, or a failed probe replaced the handler after it. */
  predicate Spoiled(ops: seq<Op>) {
    ops != []
    && var before, op := ops[..|ops| - 1], ops[|ops| - 1];
       if op.ProbeNewFails? && op.replaced then true
       else if op.SessionRegister? then false
       else if op.ProbeRegister? then Run(before).Some? && Stale(Run(before).value, op)
       else Spoiled(before)
  }

  ghost predicate OwnedUnless(s: State, spoiled: bool) {
    Quiet(s) ==> (s.handler == SessionHandler(s.phase.session) <==> !spoiled)
  }

  /**
   While a session is installed and no probe is between creating its core and restoring, the
   global handler is the session's, exactly when the latest registration was not stale and no
   failed probe replaced it since.
   */
  lemma {:induction false} HandlerIsTheSessionsExactlyUnlessSpoiled(ops: seq<Op>)
    requires Run(ops).Some?
    ensures OwnedUnless(Run(ops).value, Spoiled(ops))
  {
    if ops != [] {
      var before, op := ops[..|ops| - 1], ops[|ops| - 1];
      HandlerIsTheSessionsExactlyUnlessSpoiled(before);
      ActiveBelongsToTheSession(before);
      var s := Run(before).value;
      if op.ProbeNew? {
        assert op.probe in s.probes[op.probe := Replaced];
      } else if op.ProbeLoad? && s.active.Some? {
        assert op.probe in s.probes[op.probe := Loaded(s.active.value)];
      }
    }
  }

  /** No probe fails after replacing the handler, and each restore is one step. */
  predicate Wholesome(ops: seq<Op>) {
    && (forall i :: 0 <= i < |ops| ==> !(ops[i].ProbeNewFails? && ops[i].replaced))
    && (forall i :: 0 <= i < |ops| && ops[i].ProbeRegister? ==> i > 0 && ops[i - 1] == ProbeLoad(ops[i].probe))
  }

  lemma WholesomePrefix(ops: seq<Op>)
    requires ops != [] && Wholesome(ops)
    ensures Wholesome(ops[..|ops| - 1])
  {
  }

  lemma {:induction false} WholesomeRunsAreUnspoiled(ops: seq<Op>)
    requires Run(ops).Some? && Wholesome(ops)
    ensures !Spoiled(ops)
  {
    if ops != [] {
      var before, op := ops[..|ops| - 1], ops[|ops| - 1];
      WholesomePrefix(ops);
      WholesomeRunsAreUnspoiled(before);
      if op.ProbeRegister? {
        assert before[|before| - 1] == ProbeLoad(op.probe);
        assert Run(before[..|before| - 1]).Some?;
      }
    }
  }

  /** With restore taken as one step, an installed session owns the handler whenever no probe is under way. */
  lemma InstalledSessionOwnsTheHandler(ops: seq<Op>)
    requires Run(ops).Some? && Wholesome(ops) && Quiet(Run(ops).value)
    ensures Run(ops).value.handler == SessionHandler(Run(ops).value.phase.session)
  {
    WholesomeRunsAreUnspoiled(ops);
    HandlerIsTheSessionsExactlyUnlessSpoiled(ops);
  }

  // ---------- As written, restoring takes two steps ----------

  lemma RunAppend(ops: seq<Op>, op: Op, s: State, t: State)
    requires Run(ops) == Some(s) && Step(s, op) == Some(t)
    ensures Run(ops + [op]) == Some(t)
  {
    assert (ops + [op])[..|ops|] == ops;
  }

  /** Creating a session: all its steps up to the installed handler. */
  lemma StartRuns(ops: seq<Op>, s: State)
    requires Run(ops) == Some(s) && s.phase == Idle
    ensures Run(ops + [SessionNew] + [SessionStore] + [SessionRegister]) == Some(
      State(SessionHandler(s.sessions), Some(s.sessions), Installed(s.sessions), s.sessions + 1, s.probes))
  {
    hide Run;
    var n := s.sessions;
    var created := State(CoreLog, s.active, Created(n), n + 1, s.probes);
    var stored := created.(active := Some(n), phase := Stored(n));
    RunAppend(ops, SessionNew, s, created);
    RunAppend(ops + [SessionNew], SessionStore, created, stored);
    RunAppend(ops + [SessionNew] + [SessionStore], SessionRegister, stored,
      stored.(handler := SessionHandler(n), phase := Installed(n)));
  }

  lemma EndDuringRestoreRuns(ops: seq<Op>, s: State, p: nat)
    requires Run(ops) == Some(s) && Quiet(s) && s.active == Some(s.phase.session)
    ensures Run(ops + [ProbeNew(p)] + [ProbeLoad(p)] + [SessionEnds]) == Some(
      State(CoreLog, None, Idle, s.sessions, map[p := Loaded(s.phase.session)]))
  {
    hide Run;
    var replaced := s.(handler := CoreLog, probes := map[p := Replaced]);
    var loaded := replaced.(probes := map[p := Loaded(s.phase.session)]);
    assert replaced.probes[p := Loaded(s.phase.session)] == loaded.probes;
    RunAppend(ops, ProbeNew(p), s, replaced);
    RunAppend(ops + [ProbeNew(p)], ProbeLoad(p), replaced, loaded);
    RunAppend(ops + [ProbeNew(p)] + [ProbeLoad(p)], SessionEnds, loaded, loaded.(active := None, phase := Idle));
  }

  function RestartDuringRestore(ops: seq<Op>, p: nat): seq<Op> {
    ops + [ProbeNew(p)] + [ProbeLoad(p)] + [SessionEnds]
    + [SessionNew] + [SessionStore] + [SessionRegister] + [ProbeRegister(p)]
  }

  /**
   From any state in which a session is installed and no probe is under way, the two steps of one
   restore can enclose a restart: the next session then runs with the handler of the last one.
   */
  lemma RestoreCanOutliveASession(ops: seq<Op>, p: nat)
    requires Run(ops).Some? && Quiet(Run(ops).value)
    ensures var after := Run(RestartDuringRestore(ops, p));
      && after.Some? && Quiet(after.value)
      && after.value.handler == SessionHandler(Run(ops).value.phase.session)
      && after.value.phase.session != Run(ops).value.phase.session
  {
    hide Run;
    ActiveBelongsToTheSession(ops);
    var s := Run(ops).value;
    EndDuringRestoreRuns(ops, s, p);
    var ended := ops + [ProbeNew(p)] + [ProbeLoad(p)] + [SessionEnds];
    StartRuns(ended, Run(ended).value);
    var started := ended + [SessionNew] + [SessionStore] + [SessionRegister];
    var t := Run(started).value;
    RunAppend(started, ProbeRegister(p), t, t.(handler := SessionHandler(s.phase.session), probes := map[]));
  }
}
