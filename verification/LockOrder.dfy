/**
 The lock discipline of the desktop core: process lock, then runtime lock, then controller lock, then
 the leaf locks of the GC pause and of a connection log. Each host call is a program of lock actions;
 any number of threads run any number of calls in any interleaving. Opaque work is an action that
 needs no lock, and a delay probe is one that may take arbitrarily long.
 */
module LockOrder {
  import opened Wrappers

  datatype Lock =
    | ProcessLock
    | RuntimeLock(r: nat)
    | ControllerLock(c: nat)
    | GcPauseLock
    | LogLock(l: nat)

  const RANKS := 4

  function Rank(l: Lock): (rank: nat)
    ensures rank < RANKS
  {
    match l
    case ProcessLock => 0
    case RuntimeLock(_) => 1
    case ControllerLock(_) => 2
    case GcPauseLock => 3
    case LogLock(_) => 3
  }

  datatype Action = Acquire(lock: Lock) | Release(lock: Lock) | Work | Probe

  type Program = seq<Action>

  // ---------- The programs of the host calls ----------

  /** Host calls, by the runtime and controller they address and the log lines emitted meanwhile. */
  datatype Call =
    | InitializeAssets(r: nat)
    | CreateController(r: nat)
    | AssetDirectory(r: nat)
    | ActiveHandle(r: nat)
    | DestroyUnknown(r: nat)
    | DestroyIdle(r: nat, c: nat)
    | DestroyRunning(r: nat, c: nat, lines: seq<nat>)
    | StartRejected(r: nat)
    | StartBusy(r: nat, c: nat)
    | StartCore(r: nat, c: nat, creating: seq<nat>, starting: seq<nat>)
    | Stop(r: nat, c: nat, lines: seq<nat>)
    | IsRunning(r: nat, c: nat)
    | QueryTrafficStats(r: nat, c: nat)
    | SetConnectionLogEnabled(r: nat, c: nat)
    | ReadConnectionLog(r: nat, c: nat, l: nat)
    | MeasureDelay(r: nat, c: nat, lines: seq<nat>)
    | MeasureOutboundDelay(lines: seq<nat>)
    | CoreLogsLine(l: nat)

  function Locked(l: Lock, inner: Program): Program { [Acquire(l)] + inner + [Release(l)] }

  /** Every Info line that reaches the active handler is recorded under the lock of its log. */
  function LogLines(lines: seq<nat>): Program {
    if lines == [] then [] else Locked(LogLock(lines[0]), [Work]) + LogLines(lines[1..])
  }

  /** CoreController.StartLoop; the GC pause is entered and left while the controller lock is held. */
  function StartLoop(c: nat, creating: seq<nat>, starting: seq<nat>): Program {
    Locked(ControllerLock(c),
           Locked(GcPauseLock, [Work]) + [Work] + LogLines(creating) + LogLines(starting) + Locked(GcPauseLock, [Work]))
  }

  function StopLoop(c: nat, lines: seq<nat>): Program { Locked(ControllerLock(c), [Work] + LogLines(lines)) }

  function ReadController(c: nat): Program { Locked(ControllerLock(c), [Work]) }

  function Session(r: nat, inner: Program): Program { Locked(ProcessLock, Locked(RuntimeLock(r), inner)) }

  /** Looking a controller up and then using it, the runtime lock being released in between. */
  function LookUp(r: nat): Program { Locked(RuntimeLock(r), [Work]) }

  function ProgramOf(call: Call): Program {
    match call
    case InitializeAssets(r) => Session(r, [Work])
    case CreateController(r) => LookUp(r)
    case AssetDirectory(r) => LookUp(r)
    case ActiveHandle(r) => LookUp(r)
    case DestroyUnknown(r) => Session(r, [])
    case DestroyIdle(r, c) => Session(r, ReadController(c) + [Work])
    case DestroyRunning(r, c, lines) => Session(r, ReadController(c) + StopLoop(c, lines) + [Work])
    case StartRejected(r) => Session(r, [])
    case StartBusy(r, c) => Session(r, ReadController(c))
    case StartCore(r, c, creating, starting) =>
      Session(r, ReadController(c) + StartLoop(c, creating, starting) + [Work])
    case Stop(r, c, lines) => Session(r, StopLoop(c, lines) + [Work])
    case IsRunning(r, c) => Session(r, ReadController(c) + [Work])
    case QueryTrafficStats(r, c) => LookUp(r) + ReadController(c)
    case SetConnectionLogEnabled(r, c) => LookUp(r) + ReadController(c)
    case ReadConnectionLog(r, c, l) => LookUp(r) + ReadController(c) + Locked(LogLock(l), [Work])
    case MeasureDelay(r, c, lines) => LookUp(r) + ReadController(c) + [Probe] + LogLines(lines)
    case MeasureOutboundDelay(lines) => [Probe] + LogLines(lines)
    case CoreLogsLine(l) => LogLines([l])
  }

  function ProgramOfCalls(calls: seq<Call>): Program {
    if calls == [] then [] else ProgramOf(calls[0]) + ProgramOfCalls(calls[1..])
  }

  // ---------- The discipline ----------

  /**
   The locks held after a program that starts with `held`, or None when it breaks the discipline: a
   lock is taken out of rank order, one that is not held is released, or a probe runs under a lock.
   */
  function After(program: Program, held: set<Lock>): Option<set<Lock>> {
    if program == [] then Some(held)
    else
      match program[0]
      case Acquire(l) =>
        if forall h :: h in held ==> Rank(h) < Rank(l) then After(program[1..], held + {l}) else None
      case Release(l) => if l in held then After(program[1..], held - {l}) else None
      case Work => After(program[1..], held)
      case Probe => if held == {} then After(program[1..], held) else None
  }

  lemma {:induction false} AfterConcat(p: Program, q: Program, held: set<Lock>)
    requires After(p, held).Some?
    ensures After(p + q, held) == After(q, After(p, held).value)
  {
    if p == [] {
      assert p + q == q;
    } else {
      assert (p + q)[1..] == p[1..] + q;
      match p[0]
      case Acquire(l) => AfterConcat(p[1..], q, held + {l});
      case Release(l) => AfterConcat(p[1..], q, held - {l});
      case _ => AfterConcat(p[1..], q, held);
    }
  }

  /** All held locks rank below `rank`. */
  ghost predicate Below(held: set<Lock>, rank: nat) { forall h :: h in held ==> Rank(h) < rank }

  /** `p` may run under any locks below `rank` and leaves them as they were. */
  ghost predicate Balanced(p: Program, rank: nat) {
    forall held :: Below(held, rank) ==> After(p, held) == Some(held)
  }

  lemma BalancedConcat(p: Program, q: Program, rank: nat)
    requires Balanced(p, rank) && Balanced(q, rank)
    ensures Balanced(p + q, rank)
  {
    forall held | Below(held, rank) ensures After(p + q, held) == Some(held) {
      AfterConcat(p, q, held);
    }
  }

  lemma BalancedLower(p: Program, rank: nat, lower: nat)
    requires Balanced(p, rank) && lower <= rank
    ensures Balanced(p, lower)
  {
    assert forall held :: Below(held, lower) ==> Below(held, rank);
  }

  lemma BalancedLocked(l: Lock, inner: Program)
    requires Balanced(inner, Rank(l) + 1)
    ensures Balanced(Locked(l, inner), Rank(l))
  {
    forall held | Below(held, Rank(l)) ensures After(Locked(l, inner), held) == Some(held) {
      assert l !in held && Below(held + {l}, Rank(l) + 1);
      assert Locked(l, inner)[1..] == inner + [Release(l)];
      AfterConcat(inner, [Release(l)], held + {l});
      assert held + {l} - {l} == held;
      assert [Release(l)][1..] == [];
    }
  }

  lemma BalancedWork(rank: nat)
    ensures Balanced([Work], rank) && Balanced([], rank)
  {
  }

  lemma {:induction false} BalancedLogLines(lines: seq<nat>)
    ensures Balanced(LogLines(lines), 3)
  {
    BalancedWork(3);
    BalancedWork(4);
    if lines != [] {
      BalancedLocked(LogLock(lines[0]), [Work]);
      BalancedLogLines(lines[1..]);
      BalancedConcat(Locked(LogLock(lines[0]), [Work]), LogLines(lines[1..]), 3);
    }
  }

  lemma BalancedController(c: nat)
    ensures Balanced(ReadController(c), 2)
  {
    BalancedWork(3);
    BalancedLocked(ControllerLock(c), [Work]);
  }

  lemma BalancedStopLoop(c: nat, lines: seq<nat>)
    ensures Balanced(StopLoop(c, lines), 2)
  {
    BalancedWork(3);
    BalancedLogLines(lines);
    BalancedConcat([Work], LogLines(lines), 3);
    BalancedLocked(ControllerLock(c), [Work] + LogLines(lines));
  }

  lemma BalancedStartLoop(c: nat, creating: seq<nat>, starting: seq<nat>)
    ensures Balanced(StartLoop(c, creating, starting), 2)
  {
    BalancedWork(3);
    BalancedWork(4);
    var gc := Locked(GcPauseLock, [Work]);
    BalancedLocked(GcPauseLock, [Work]);
    BalancedLogLines(creating);
    BalancedLogLines(starting);
    BalancedConcat(gc, [Work], 3);
    BalancedConcat(gc + [Work], LogLines(creating), 3);
    BalancedConcat(gc + [Work] + LogLines(creating), LogLines(starting), 3);
    BalancedConcat(gc + [Work] + LogLines(creating) + LogLines(starting), gc, 3);
    BalancedLocked(ControllerLock(c), gc + [Work] + LogLines(creating) + LogLines(starting) + gc);
  }

  lemma BalancedSession(r: nat, inner: Program)
    requires Balanced(inner, 2)
    ensures Balanced(Session(r, inner), 0)
  {
    BalancedLocked(RuntimeLock(r), inner);
    BalancedLocked(ProcessLock, Locked(RuntimeLock(r), inner));
  }

  lemma BalancedLookUp(r: nat)
    ensures Balanced(LookUp(r), 0)
  {
    BalancedWork(2);
    BalancedLocked(RuntimeLock(r), [Work]);
    BalancedLower(LookUp(r), 1, 0);
  }

  lemma BalancedProbe(lines: seq<nat>)
    ensures Balanced([Probe] + LogLines(lines), 0)
  {
    BalancedLogLines(lines);
    BalancedLower(LogLines(lines), 3, 0);
    assert Balanced([Probe], 0) by {
      assert forall held :: Below(held, 0) ==> held == {};
      assert [Probe][1..] == [];
    }
    BalancedConcat([Probe], LogLines(lines), 0);
  }

  /** Every host call keeps the discipline and ends without a lock. */
  lemma EveryCallIsDisciplined(call: Call)
    ensures Balanced(ProgramOf(call), 0)
  {
    hide Balanced, LookUp, ReadController, StopLoop, StartLoop, Session, LogLines, Locked;
    BalancedWork(2);
    match call
    case InitializeAssets(r) => BalancedSession(r, [Work]);
    case CreateController(r) => BalancedLookUp(r);
    case AssetDirectory(r) => BalancedLookUp(r);
    case ActiveHandle(r) => BalancedLookUp(r);
    case DestroyUnknown(r) => BalancedSession(r, []);
    case DestroyIdle(r, c) =>
      BalancedController(c);
      BalancedConcat(ReadController(c), [Work], 2);
      BalancedSession(r, ReadController(c) + [Work]);
    case DestroyRunning(r, c, lines) =>
      BalancedController(c);
      BalancedStopLoop(c, lines);
      BalancedConcat(ReadController(c), StopLoop(c, lines), 2);
      BalancedConcat(ReadController(c) + StopLoop(c, lines), [Work], 2);
      BalancedSession(r, ReadController(c) + StopLoop(c, lines) + [Work]);
    case StartRejected(r) => BalancedSession(r, []);
    case StartBusy(r, c) =>
      BalancedController(c);
      BalancedSession(r, ReadController(c));
    case StartCore(r, c, creating, starting) =>
      BalancedController(c);
      BalancedStartLoop(c, creating, starting);
      BalancedConcat(ReadController(c), StartLoop(c, creating, starting), 2);
      BalancedConcat(ReadController(c) + StartLoop(c, creating, starting), [Work], 2);
      BalancedSession(r, ReadController(c) + StartLoop(c, creating, starting) + [Work]);
    case Stop(r, c, lines) =>
      BalancedStopLoop(c, lines);
      BalancedConcat(StopLoop(c, lines), [Work], 2);
      BalancedSession(r, StopLoop(c, lines) + [Work]);
    case IsRunning(r, c) =>
      BalancedController(c);
      BalancedConcat(ReadController(c), [Work], 2);
      BalancedSession(r, ReadController(c) + [Work]);
    case QueryTrafficStats(r, c) => BalancedLookUpThenController(r, c);
    case SetConnectionLogEnabled(r, c) => BalancedLookUpThenController(r, c);
    case ReadConnectionLog(r, c, l) =>
      BalancedLookUpThenController(r, c);
      BalancedWork(4);
      BalancedLocked(LogLock(l), [Work]);
      BalancedLower(Locked(LogLock(l), [Work]), 3, 0);
      BalancedConcat(LookUp(r) + ReadController(c), Locked(LogLock(l), [Work]), 0);
    case MeasureDelay(r, c, lines) =>
      BalancedLookUpThenController(r, c);
      BalancedProbe(lines);
      BalancedConcat(LookUp(r) + ReadController(c), [Probe] + LogLines(lines), 0);
      assert ProgramOf(call) == LookUp(r) + ReadController(c) + ([Probe] + LogLines(lines));
    case MeasureOutboundDelay(lines) => BalancedProbe(lines);
    case CoreLogsLine(l) =>
      BalancedLogLines([l]);
      BalancedLower(LogLines([l]), 3, 0);
  }

  lemma BalancedLookUpThenController(r: nat, c: nat)
    ensures Balanced(LookUp(r) + ReadController(c), 0)
  {
    BalancedLookUp(r);
    BalancedController(c);
    BalancedLower(ReadController(c), 2, 0);
    BalancedConcat(LookUp(r), ReadController(c), 0);
  }

  lemma {:induction false} CallsAreDisciplined(calls: seq<Call>)
    ensures Balanced(ProgramOfCalls(calls), 0)
  {
    if calls == [] {
      BalancedWork(0);
    } else {
      EveryCallIsDisciplined(calls[0]);
      CallsAreDisciplined(calls[1..]);
      BalancedConcat(ProgramOf(calls[0]), ProgramOfCalls(calls[1..]), 0);
    }
  }

  // ---------- Any number of threads ----------

  datatype Thread = Thread(rest: Program, held: set<Lock>)

  type System = seq<Thread>

  function Initial(work: seq<seq<Call>>): System {
    seq(|work|, i requires 0 <= i < |work| => Thread(ProgramOfCalls(work[i]), {}))
  }

  ghost predicate Held(s: System, l: Lock) { exists t :: 0 <= t < |s| && l in s[t].held }

  /** Thread `t` has something left to do and is not waiting for a lock. */
  ghost predicate CanMove(s: System, t: nat) {
    t < |s| && s[t].rest != [] && (s[t].rest[0].Acquire? ==> !Held(s, s[t].rest[0].lock))
  }

  ghost predicate Waits(s: System, t: nat, l: Lock) {
    t < |s| && s[t].rest != [] && s[t].rest[0] == Acquire(l) && Held(s, l)
  }

  function Moved(s: System, t: nat): System
    requires t < |s| && s[t].rest != []
  {
    var held := match s[t].rest[0]
      case Acquire(l) => s[t].held + {l}
      case Release(l) => s[t].held - {l}
      case _ => s[t].held;
    s[t := Thread(s[t].rest[1..], held)]
  }

  /** The state after the threads of the schedule have moved in turn, if each of them could. */
  ghost function Execute(work: seq<seq<Call>>, schedule: seq<nat>): Option<System>
    decreases |schedule|
  {
    if schedule == [] then Some(Initial(work))
    else
      var before := Execute(work, schedule[..|schedule| - 1]);
      var t := schedule[|schedule| - 1];
      if before.Some? && CanMove(before.value, t) then Some(Moved(before.value, t)) else None
  }

  ghost predicate Reaches(work: seq<seq<Call>>, schedule: seq<nat>, s: System) {
    Execute(work, schedule) == Some(s)
  }

  /** No lock has two holders, and every thread can finish its program within the discipline. */
  ghost predicate Sound(s: System) {
    && (forall t, u, l :: 0 <= t < |s| && 0 <= u < |s| && l in s[t].held && l in s[u].held ==> t == u)
    && (forall t :: 0 <= t < |s| ==> After(s[t].rest, s[t].held) == Some({}))
  }

  lemma MoveKeepsSound(s: System, t: nat)
    requires Sound(s) && CanMove(s, t)
    ensures Sound(Moved(s, t))
  {
  }

  lemma {:induction false} ReachableIsSound(work: seq<seq<Call>>, schedule: seq<nat>, s: System)
    requires Reaches(work, schedule, s)
    ensures Sound(s)
    decreases |schedule|
  {
    if schedule == [] {
      forall t | 0 <= t < |s| ensures After(s[t].rest, s[t].held) == Some({}) {
        CallsAreDisciplined(work[t]);
        assert Below({}, 0);
      }
    } else {
      var before := Execute(work, schedule[..|schedule| - 1]).value;
      ReachableIsSound(work, schedule[..|schedule| - 1], before);
      MoveKeepsSound(before, schedule[|schedule| - 1]);
    }
  }

  /** Behind every waiting thread stands one that can move and is not inside a probe. */
  lemma {:induction false} FindMover(s: System, t: nat, l: Lock) returns (u: nat)
    requires Sound(s) && Waits(s, t, l)
    ensures CanMove(s, u) && !s[u].rest[0].Probe? && s[u].held != {}
    decreases RANKS - Rank(l)
  {
    u :| 0 <= u < |s| && l in s[u].held;
    assert s[u].rest != [];
    if s[u].rest[0].Acquire? && Held(s, s[u].rest[0].lock) {
      u := FindMover(s, u, s[u].rest[0].lock);
    }
  }

  /**
   Deadlock freedom for any number of threads, calls and interleavings: whenever a thread waits, some
   other thread can move, and that thread holds a lock and is not inside a probe.
   */
  lemma WaitingThreadsHaveAMover(work: seq<seq<Call>>, schedule: seq<nat>, s: System, t: nat, l: Lock)
    requires Reaches(work, schedule, s) && Waits(s, t, l)
    ensures exists u: nat :: u != t && CanMove(s, u) && s[u].held != {} && !s[u].rest[0].Probe?
  {
    ReachableIsSound(work, schedule, s);
    var u := FindMover(s, t, l);
  }

  /** A thread about to run a probe holds no lock, so nobody waits for it. */
  lemma ProbesHoldNothing(work: seq<seq<Call>>, schedule: seq<nat>, s: System, t: nat)
    requires Reaches(work, schedule, s) && t < |s| && s[t].rest != [] && s[t].rest[0].Probe?
    ensures s[t].held == {}
  {
    ReachableIsSound(work, schedule, s);
  }

  function Remaining(s: System): nat {
    if s == [] then 0 else |s[0].rest| + Remaining(s[1..])
  }

  lemma {:induction false} MoveShrinks(s: System, t: nat)
    requires t < |s| && s[t].rest != []
    ensures Remaining(Moved(s, t)) == Remaining(s) - 1
  {
    var m := Moved(s, t);
    if t == 0 {
      assert m[1..] == s[1..];
    } else {
      assert m[1..] == Moved(s[1..], t - 1);
      MoveShrinks(s[1..], t - 1);
    }
  }

  lemma {:induction false} NothingRemains(s: System)
    requires Remaining(s) == 0
    ensures forall t :: 0 <= t < |s| ==> s[t].rest == []
  {
    if s != [] {
      NothingRemains(s[1..]);
      assert forall t :: 0 < t < |s| ==> s[t] == s[1..][t - 1];
    }
  }

  lemma {:induction false} SomethingRemains(s: System) returns (t: nat)
    requires Remaining(s) != 0
    ensures t < |s| && s[t].rest != []
  {
    if s[0].rest != [] {
      t := 0;
    } else {
      t := SomethingRemains(s[1..]);
      t := t + 1;
    }
  }

  /** From every reachable state the threads can be run until all calls have returned. */
  lemma {:induction false} EveryCallCanReturn(work: seq<seq<Call>>, schedule: seq<nat>, s: System)
    returns (more: seq<nat>, done: System)
    requires Reaches(work, schedule, s)
    ensures Reaches(work, schedule + more, done)
    ensures forall t :: 0 <= t < |done| ==> done[t] == Thread([], {})
    decreases Remaining(s)
  {
    ReachableIsSound(work, schedule, s);
    if Remaining(s) == 0 {
      NothingRemains(s);
      more, done := [], s;
      assert schedule + more == schedule;
    } else {
      var t := SomethingRemains(s);
      if !CanMove(s, t) {
        t := FindMover(s, t, s[t].rest[0].lock);
      }
      MoveShrinks(s, t);
      assert (schedule + [t])[..|schedule|] == schedule;
      more, done := EveryCallCanReturn(work, schedule + [t], Moved(s, t));
      assert schedule + [t] + more == schedule + ([t] + more);
      more := [t] + more;
    }
  }

  // ---------- Nobody waits for a probe ----------

  /** Moves that can be made one after the other, none of them a probe, and where they lead. */
  ghost predicate ProbeFree(s: System, moves: seq<nat>, done: System)
    decreases |moves|
  {
    if moves == [] then done == s
    else
      CanMove(s, moves[0]) && !s[moves[0]].rest[0].Probe? && ProbeFree(Moved(s, moves[0]), moves[1..], done)
  }

  predicate NoProbe(p: Program) { forall i :: 0 <= i < |p| ==> !p[i].Probe? }

  lemma ProbeFreeCons(s: System, u: nat, moves: seq<nat>, done: System)
    requires CanMove(s, u) && !s[u].rest[0].Probe? && ProbeFree(Moved(s, u), moves, done)
    ensures ProbeFree(s, [u] + moves, done)
  {
    assert ([u] + moves)[1..] == moves;
  }

  lemma ReachesNext(work: seq<seq<Call>>, schedule: seq<nat>, s: System, u: nat)
    requires Reaches(work, schedule, s) && CanMove(s, u)
    ensures Reaches(work, schedule + [u], Moved(s, u))
  {
    assert (schedule + [u])[..|schedule|] == schedule;
  }

  /** Whoever moves, the next actions of `t` stay free of probes. */
  lemma StillNoProbe(s: System, t: nat, u: nat, n: nat)
    requires t < |s| && u < |s| && s[u].rest != [] && 0 < n <= |s[t].rest| && NoProbe(s[t].rest[..n])
    ensures var left := if u == t then n - 1 else n;
      && |Moved(s, u)| == |s| && left <= |Moved(s, u)[t].rest| && NoProbe(Moved(s, u)[t].rest[..left])
      && Moved(s, u)[t].rest[left..] == s[t].rest[n..]
    ensures !s[t].rest[0].Probe?
  {
    var front := s[t].rest[..n];
    assert !front[0].Probe? && front[0] == s[t].rest[0];
    assert front[1..] == s[t].rest[1..][..n - 1];
  }

  /**
   From every reachable state a thread can be driven through its next actions, if none of them is a
   probe, without a move of any thread being a probe.
   */
  lemma {:induction false} NobodyWaitsForAProbe(
    work: seq<seq<Call>>, schedule: seq<nat>, s: System, t: nat, n: nat) returns (moves: seq<nat>, done: System)
    requires Reaches(work, schedule, s) && t < |s| && n <= |s[t].rest| && NoProbe(s[t].rest[..n])
    ensures ProbeFree(s, moves, done) && Reaches(work, schedule + moves, done)
    ensures |done| == |s| && done[t].rest == s[t].rest[n..]
    decreases Remaining(s)
  {
    hide Reaches, Sound, NoProbe, ProbeFree, Moved, Remaining;
    if n == 0 {
      moves, done := [], s;
      assert schedule + moves == schedule;
      NothingMoved(s);
    } else {
      ReachableIsSound(work, schedule, s);
      var u := t;
      if !CanMove(s, t) {
        u := FindMover(s, t, s[t].rest[0].lock);
      }
      StillNoProbe(s, t, u, n);
      MoveShrinks(s, u);
      ReachesNext(work, schedule, s, u);
      moves, done := NobodyWaitsForAProbe(work, schedule + [u], Moved(s, u), t, if u == t then n - 1 else n);
      assert schedule + [u] + moves == schedule + ([u] + moves);
      ProbeFreeCons(s, u, moves, done);
      moves := [u] + moves;
    }
  }

  lemma NothingMoved(s: System)
    ensures ProbeFree(s, [], s)
  {
  }

  lemma NoProbeConcat(p: Program, q: Program)
    requires NoProbe(p) && NoProbe(q)
    ensures NoProbe(p + q)
  {
  }

  lemma NoProbeLocked(l: Lock, inner: Program)
    requires NoProbe(inner)
    ensures NoProbe(Locked(l, inner))
  {
  }

  lemma NoProbeInWork()
    ensures NoProbe([Work]) && NoProbe([])
  {
  }

  lemma {:induction false} LogLinesHaveNoProbe(lines: seq<nat>)
    ensures NoProbe(LogLines(lines))
  {
    hide NoProbe, Locked;
    NoProbeInWork();
    if lines != [] {
      LogLinesHaveNoProbe(lines[1..]);
      NoProbeLocked(LogLock(lines[0]), [Work]);
      NoProbeConcat(Locked(LogLock(lines[0]), [Work]), LogLines(lines[1..]));
    }
  }

  /** Stop and IsRunning contain no probe, so they never wait for one. */
  lemma StopAndIsRunningHaveNoProbe(r: nat, c: nat, lines: seq<nat>)
    ensures NoProbe(ProgramOf(Stop(r, c, lines))) && NoProbe(ProgramOf(IsRunning(r, c)))
  {
    hide NoProbe, Locked, LogLines;
    NoProbeInWork();
    LogLinesHaveNoProbe(lines);
    NoProbeConcat([Work], LogLines(lines));
    NoProbeLocked(ControllerLock(c), [Work] + LogLines(lines));
    NoProbeConcat(StopLoop(c, lines), [Work]);
    NoProbeLocked(RuntimeLock(r), StopLoop(c, lines) + [Work]);
    NoProbeLocked(ProcessLock, Locked(RuntimeLock(r), StopLoop(c, lines) + [Work]));
    NoProbeLocked(ControllerLock(c), [Work]);
    NoProbeConcat(ReadController(c), [Work]);
    NoProbeLocked(RuntimeLock(r), ReadController(c) + [Work]);
    NoProbeLocked(ProcessLock, Locked(RuntimeLock(r), ReadController(c) + [Work]));
  }

  // ---------- What the locks guard ----------

  /** Whatever the program works on, it holds the locks of `need` meanwhile. */
  ghost predicate Guarded(p: Program, held: set<Lock>, need: set<Lock>)
    decreases |p|
  {
    if p == [] then true
    else
      match p[0]
      case Acquire(l) => Guarded(p[1..], held + {l}, need)
      case Release(l) => Guarded(p[1..], held - {l}, need)
      case Work => need <= held && Guarded(p[1..], held, need)
      case Probe => Guarded(p[1..], held, need)
  }

  /** The program gives back only locks of this rank and above. */
  predicate Keeps(p: Program, rank: nat) {
    forall i :: 0 <= i < |p| && p[i].Release? ==> Rank(p[i].lock) >= rank
  }

  lemma {:induction false} KeptLocksGuard(p: Program, held: set<Lock>, need: set<Lock>, rank: nat)
    requires Keeps(p, rank) && need <= held && forall l :: l in need ==> Rank(l) < rank
    ensures Guarded(p, held, need)
    decreases |p|
  {
    if p != [] {
      assert forall i :: 0 <= i < |p[1..]| ==> p[1..][i] == p[i + 1];
      match p[0]
      case Acquire(l) => KeptLocksGuard(p[1..], held + {l}, need, rank);
      case Release(l) => KeptLocksGuard(p[1..], held - {l}, need, rank);
      case _ => KeptLocksGuard(p[1..], held, need, rank);
    }
  }

  lemma KeepsConcat(p: Program, q: Program, rank: nat)
    requires Keeps(p, rank) && Keeps(q, rank)
    ensures Keeps(p + q, rank)
  {
  }

  lemma KeepsLocked(l: Lock, inner: Program, rank: nat)
    requires Keeps(inner, rank) && Rank(l) >= rank
    ensures Keeps(Locked(l, inner), rank)
  {
  }

  lemma KeepsWork(rank: nat)
    ensures Keeps([Work], rank) && Keeps([], rank)
  {
  }

  lemma {:induction false} KeepsLogLines(lines: seq<nat>)
    ensures Keeps(LogLines(lines), 2)
  {
    hide Keeps, Locked;
    KeepsWork(2);
    if lines != [] {
      KeepsLogLines(lines[1..]);
      KeepsLocked(LogLock(lines[0]), [Work], 2);
      KeepsConcat(Locked(LogLock(lines[0]), [Work]), LogLines(lines[1..]), 2);
    }
  }

  lemma KeepsReadController(c: nat)
    ensures Keeps(ReadController(c), 2)
  {
    hide Keeps, Locked;
    KeepsWork(2);
    KeepsLocked(ControllerLock(c), [Work], 2);
  }

  lemma KeepsStopLoop(c: nat, lines: seq<nat>)
    ensures Keeps(StopLoop(c, lines), 2)
  {
    hide Keeps, Locked;
    KeepsWork(2);
    KeepsLogLines(lines);
    KeepsConcat([Work], LogLines(lines), 2);
    KeepsLocked(ControllerLock(c), [Work] + LogLines(lines), 2);
  }

  lemma KeepsStartLoop(c: nat, creating: seq<nat>, starting: seq<nat>)
    ensures Keeps(StartLoop(c, creating, starting), 2)
  {
    hide Keeps, Locked;
    KeepsWork(2);
    KeepsLogLines(creating);
    KeepsLogLines(starting);
    var gc := Locked(GcPauseLock, [Work]);
    KeepsLocked(GcPauseLock, [Work], 2);
    KeepsConcat(gc, [Work], 2);
    KeepsConcat(gc + [Work], LogLines(creating), 2);
    KeepsConcat(gc + [Work] + LogLines(creating), LogLines(starting), 2);
    KeepsConcat(gc + [Work] + LogLines(creating) + LogLines(starting), gc, 2);
    KeepsLocked(ControllerLock(c), gc + [Work] + LogLines(creating) + LogLines(starting) + gc, 2);
  }

  lemma SessionGuards(r: nat, inner: Program)
    requires Keeps(inner, 2)
    ensures Guarded(Session(r, inner), {}, {ProcessLock, RuntimeLock(r)})
  {
    hide Keeps, Guarded;
    var need := {ProcessLock, RuntimeLock(r)};
    var p := Session(r, inner);
    var rest := inner + [Release(RuntimeLock(r)), Release(ProcessLock)];
    assert p == [Acquire(ProcessLock)] + ([Acquire(RuntimeLock(r))] + rest);
    KeptThenReleased(inner, r, need);
    assert {} + {ProcessLock} + {RuntimeLock(r)} == need;
    AcquireGuards(RuntimeLock(r), rest, {} + {ProcessLock}, need);
    AcquireGuards(ProcessLock, [Acquire(RuntimeLock(r))] + rest, {}, need);
  }

  lemma AcquireGuards(l: Lock, rest: Program, held: set<Lock>, need: set<Lock>)
    requires Guarded(rest, held + {l}, need)
    ensures Guarded([Acquire(l)] + rest, held, need)
  {
    assert ([Acquire(l)] + rest)[1..] == rest;
  }

  lemma KeptThenReleased(inner: Program, r: nat, need: set<Lock>)
    requires Keeps(inner, 2) && need == {ProcessLock, RuntimeLock(r)}
    ensures Guarded(inner + [Release(RuntimeLock(r)), Release(ProcessLock)], need, need)
  {
    KeptWithTail(inner, [Release(RuntimeLock(r)), Release(ProcessLock)], need, need);
  }

  lemma {:induction false} KeptWithTail(p: Program, tail: Program, held: set<Lock>, need: set<Lock>)
    requires Keeps(p, 2) && need <= held && forall l :: l in need ==> Rank(l) < 2
    requires forall i :: 0 <= i < |tail| ==> tail[i].Release?
    ensures Guarded(p + tail, held, need)
    decreases |p|
  {
    if p == [] {
      assert p + tail == tail;
      OnlyReleases(tail, held, need);
    } else {
      assert (p + tail)[1..] == p[1..] + tail;
      assert forall i :: 0 <= i < |p[1..]| ==> p[1..][i] == p[i + 1];
      match p[0]
      case Acquire(l) => KeptWithTail(p[1..], tail, held + {l}, need);
      case Release(l) => KeptWithTail(p[1..], tail, held - {l}, need);
      case _ => KeptWithTail(p[1..], tail, held, need);
    }
  }

  lemma {:induction false} OnlyReleases(tail: Program, held: set<Lock>, need: set<Lock>)
    requires forall i :: 0 <= i < |tail| ==> tail[i].Release?
    ensures Guarded(tail, held, need)
    decreases |tail|
  {
    if tail != [] {
      assert forall i :: 0 <= i < |tail[1..]| ==> tail[1..][i] == tail[i + 1];
      OnlyReleases(tail[1..], held - {tail[0].lock}, need);
    }
  }

  /** The calls on the session of a runtime. */
  predicate IsSessionCall(call: Call) {
    || call.InitializeAssets? || call.DestroyUnknown? || call.DestroyIdle? || call.DestroyRunning?
    || call.StartRejected? || call.StartBusy? || call.StartCore? || call.Stop? || call.IsRunning?
  }

  /**
   Whatever a session call works on, it holds the process lock and the lock of its runtime. Since no
   lock has two holders, no two session calls of the process ever work at the same time.
   */
  lemma SessionCallsAreGuarded(call: Call)
    requires IsSessionCall(call)
    ensures Guarded(ProgramOf(call), {}, {ProcessLock, RuntimeLock(call.r)})
  {
    hide Keeps, Guarded, Session, ReadController, StopLoop, StartLoop;
    KeepsWork(2);
    match call
    case InitializeAssets(r) => SessionGuards(r, [Work]);
    case DestroyUnknown(r) => SessionGuards(r, []);
    case DestroyIdle(r, c) =>
      KeepsReadController(c);
      KeepsConcat(ReadController(c), [Work], 2);
      SessionGuards(r, ReadController(c) + [Work]);
    case DestroyRunning(r, c, lines) =>
      KeepsReadController(c);
      KeepsStopLoop(c, lines);
      KeepsConcat(ReadController(c), StopLoop(c, lines), 2);
      KeepsConcat(ReadController(c) + StopLoop(c, lines), [Work], 2);
      SessionGuards(r, ReadController(c) + StopLoop(c, lines) + [Work]);
    case StartRejected(r) => SessionGuards(r, []);
    case StartBusy(r, c) =>
      KeepsReadController(c);
      SessionGuards(r, ReadController(c));
    case StartCore(r, c, creating, starting) =>
      KeepsReadController(c);
      KeepsStartLoop(c, creating, starting);
      KeepsConcat(ReadController(c), StartLoop(c, creating, starting), 2);
      KeepsConcat(ReadController(c) + StartLoop(c, creating, starting), [Work], 2);
      SessionGuards(r, ReadController(c) + StartLoop(c, creating, starting) + [Work]);
    case Stop(r, c, lines) =>
      KeepsStopLoop(c, lines);
      KeepsConcat(StopLoop(c, lines), [Work], 2);
      SessionGuards(r, StopLoop(c, lines) + [Work]);
    case IsRunning(r, c) =>
      KeepsReadController(c);
      KeepsConcat(ReadController(c), [Work], 2);
      SessionGuards(r, ReadController(c) + [Work]);
  }

  /** The locks a program takes, in order. */
  function Taken(p: Program): seq<Lock> {
    if p == [] then []
    else Taken(p[..|p| - 1]) + if p[|p| - 1].Acquire? then [p[|p| - 1].lock] else []
  }

  lemma {:induction false} TakenConcat(p: Program, q: Program)
    ensures Taken(p + q) == Taken(p) + Taken(q)
    decreases |q|
  {
    if q == [] {
      assert p + q == p;
    } else {
      TakenConcat(p, q[..|q| - 1]);
      assert (p + q)[..|p + q| - 1] == p + q[..|q| - 1];
    }
  }

  lemma OneTaken(l: Lock)
    ensures Taken([Acquire(l)]) == [l] && Taken([Release(l)]) == [] && Taken([Work]) == [] && Taken([Probe]) == []
  {
    assert [Acquire(l)][..0] == [] && [Release(l)][..0] == [] && [Work][..0] == [] && [Probe][..0] == [];
  }

  lemma TakenLocked(l: Lock, inner: Program)
    ensures Taken(Locked(l, inner)) == [l] + Taken(inner)
  {
    hide Taken;
    OneTaken(l);
    TakenConcat([Acquire(l)], inner);
    TakenConcat([Acquire(l)] + inner, [Release(l)]);
  }

  /** The locks of the logs that lines go to. */
  function LogLocks(lines: seq<nat>): seq<Lock> {
    seq(|lines|, i requires 0 <= i < |lines| => LogLock(lines[i]))
  }

  lemma {:induction false} LogLinesTake(lines: seq<nat>)
    ensures Taken(LogLines(lines)) == LogLocks(lines)
  {
    hide Taken, Locked;
    OneTaken(ProcessLock);
    NothingTaken();
    if lines != [] {
      LogLinesTake(lines[1..]);
      TakenLocked(LogLock(lines[0]), [Work]);
      TakenConcat(Locked(LogLock(lines[0]), [Work]), LogLines(lines[1..]));
      assert LogLocks(lines) == [LogLock(lines[0])] + LogLocks(lines[1..]);
    }
  }

  lemma NothingTaken()
    ensures Taken([]) == []
  {
  }

  /** Which locks the calls that start, stop and ask take, written out. */
  lemma SessionCallsTake(r: nat, c: nat, creating: seq<nat>, starting: seq<nat>, lines: seq<nat>)
    ensures Taken(ProgramOf(StartCore(r, c, creating, starting))) ==
      [ProcessLock, RuntimeLock(r), ControllerLock(c), ControllerLock(c), GcPauseLock]
      + LogLocks(creating) + LogLocks(starting) + [GcPauseLock]
    ensures Taken(ProgramOf(Stop(r, c, lines))) == [ProcessLock, RuntimeLock(r), ControllerLock(c)] + LogLocks(lines)
    ensures Taken(ProgramOf(IsRunning(r, c))) == [ProcessLock, RuntimeLock(r), ControllerLock(c)]
    ensures Taken(ProgramOf(DestroyRunning(r, c, lines))) ==
      [ProcessLock, RuntimeLock(r), ControllerLock(c), ControllerLock(c)] + LogLocks(lines)
  {
    hide Taken, Locked, LogLines, LogLocks;
    OneTaken(ProcessLock);
    LogLinesTake(creating);
    LogLinesTake(starting);
    LogLinesTake(lines);
    TakenLocked(ControllerLock(c), [Work]);
    StartLoopTakes(c, creating, starting);
    TakenConcat([Work], LogLines(lines));
    TakenLocked(ControllerLock(c), [Work] + LogLines(lines));
    TakenConcat(StopLoop(c, lines), [Work]);
    TakenConcat(ReadController(c), [Work]);
    TakenConcat(ReadController(c), StopLoop(c, lines));
    TakenConcat(ReadController(c) + StopLoop(c, lines), [Work]);
    TakenConcat(ReadController(c), StartLoop(c, creating, starting));
    TakenConcat(ReadController(c) + StartLoop(c, creating, starting), [Work]);
    SessionTakes(r, StopLoop(c, lines) + [Work]);
    SessionTakes(r, ReadController(c) + [Work]);
    SessionTakes(r, ReadController(c) + StopLoop(c, lines) + [Work]);
    SessionTakes(r, ReadController(c) + StartLoop(c, creating, starting) + [Work]);
  }

  lemma SessionTakes(r: nat, inner: Program)
    ensures Taken(Session(r, inner)) == [ProcessLock, RuntimeLock(r)] + Taken(inner)
  {
    hide Taken, Locked;
    TakenLocked(RuntimeLock(r), inner);
    TakenLocked(ProcessLock, Locked(RuntimeLock(r), inner));
  }

  lemma StartLoopTakes(c: nat, creating: seq<nat>, starting: seq<nat>)
    ensures Taken(StartLoop(c, creating, starting)) ==
      [ControllerLock(c), GcPauseLock] + LogLocks(creating) + LogLocks(starting) + [GcPauseLock]
  {
    hide Taken, Locked, LogLines, LogLocks;
    OneTaken(ProcessLock);
    LogLinesTake(creating);
    LogLinesTake(starting);
    var gc := Locked(GcPauseLock, [Work]);
    TakenLocked(GcPauseLock, [Work]);
    TakenConcat(gc, [Work]);
    TakenConcat(gc + [Work], LogLines(creating));
    TakenConcat(gc + [Work] + LogLines(creating), LogLines(starting));
    TakenConcat(gc + [Work] + LogLines(creating) + LogLines(starting), gc);
    TakenLocked(ControllerLock(c), gc + [Work] + LogLines(creating) + LogLines(starting) + gc);
  }

  /** Which locks the other calls take, written out; none of them takes the process lock. */
  lemma OtherCallsTake(r: nat, c: nat, l: nat, lines: seq<nat>)
    ensures Taken(ProgramOf(CreateController(r))) == Taken(ProgramOf(AssetDirectory(r))) == [RuntimeLock(r)]
    ensures Taken(ProgramOf(ActiveHandle(r))) == [RuntimeLock(r)]
    ensures Taken(ProgramOf(QueryTrafficStats(r, c))) == [RuntimeLock(r), ControllerLock(c)]
    ensures Taken(ProgramOf(SetConnectionLogEnabled(r, c))) == [RuntimeLock(r), ControllerLock(c)]
    ensures Taken(ProgramOf(ReadConnectionLog(r, c, l))) == [RuntimeLock(r), ControllerLock(c), LogLock(l)]
    ensures Taken(ProgramOf(MeasureDelay(r, c, lines))) == [RuntimeLock(r), ControllerLock(c)] + LogLocks(lines)
    ensures Taken(ProgramOf(MeasureOutboundDelay(lines))) == LogLocks(lines)
    ensures Taken(ProgramOf(CoreLogsLine(l))) == [LogLock(l)]
  {
    hide Taken, Locked, LogLines, LogLocks, LookUp, ReadController;
    LookUpTakes(r, c);
    OneTaken(LogLock(l));
    LogLinesTake(lines);
    LogLinesTake([l]);
    OneLogLock(l);
    TakenLocked(LogLock(l), [Work]);
    TakenConcat(LookUp(r) + ReadController(c), Locked(LogLock(l), [Work]));
    TakenConcat(LookUp(r) + ReadController(c), [Probe]);
    TakenConcat(LookUp(r) + ReadController(c) + [Probe], LogLines(lines));
    TakenConcat([Probe], LogLines(lines));
  }

  lemma OneLogLock(l: nat)
    ensures LogLocks([l]) == [LogLock(l)]
  {
  }

  lemma LookUpTakes(r: nat, c: nat)
    ensures Taken(LookUp(r)) == [RuntimeLock(r)]
    ensures Taken(LookUp(r) + ReadController(c)) == [RuntimeLock(r), ControllerLock(c)]
  {
    hide Taken, Locked;
    OneTaken(ProcessLock);
    TakenLocked(RuntimeLock(r), [Work]);
    TakenLocked(ControllerLock(c), [Work]);
    TakenConcat(LookUp(r), ReadController(c));
  }
}
