/**
 The TUN session of a desktop host as a state machine: the binder it depends on, the dialer
 registration the binder depends on, and the calls that prepare, open and close. A call, which
 holds the mutex throughout, is one step here; TunDials splits it where a dial can come between.
 */
module TunHost {
  import opened Wrappers
  import Binder

  /** A stored binder: the tunnel it was made for, and whether it is switched on. */
  datatype Binding = Binding(tunnel: string, enabled: bool)

  datatype Registration = Unattempted | Registered | Refused

  datatype State = State(binding: Option<Binding>, registration: Registration, session: Option<string>)

  const INITIAL := State(None, Unattempted, None)

  /** Calls, with the outcomes of a registration, and of opening the tunnel, if they are attempted. */
  datatype Op =
    | Prepare(name: string, valid: bool, accepted: bool)
    | Open(plan: Option<string>, accepted: bool, opens: bool)
    | Close

  // ---------- What the calls do ----------

  /** The registration is attempted once and its outcome kept. */
  function Register(r: Registration, accepted: bool): Registration {
    if r != Unattempted then r else if accepted then Registered else Refused
  }

  function PutBinding(s: State, name: string, accepted: bool): State {
    if s.binding.Some? then s
    else
      var r := Register(s.registration, accepted);
      State(if r == Registered then Some(Binding(name, true)) else None, r, s.session)
  }

  /** The state in which opening the tunnel is attempted, if it comes to that. */
  function Attempting(s: State, op: Op): Option<State> {
    if !op.Open? || op.plan.None? || s.session.Some? then None
    else
      var bound := PutBinding(s, op.plan.value, op.accepted);
      if bound.binding.None? then None else Some(bound)
  }

  function Step(s: State, op: Op): State {
    match op
    case Prepare(name, valid, accepted) => if valid then PutBinding(s, name, accepted) else s
    case Open(plan, accepted, opens) =>
      if plan.None? || s.session.Some? then s
      else
        var bound := PutBinding(s, plan.value, accepted);
        if bound.binding.None? then bound
        else if opens then bound.(session := plan)
        else if s.binding.None? then bound.(binding := None)
        else bound
    case Close => s.(binding := None, session := None)
  }

  function Run(ops: seq<Op>): State {
    if ops == [] then INITIAL else Step(Run(ops[..|ops| - 1]), ops[|ops| - 1])
  }

  // ---------- The host ----------

  class Host {
    var binder: Binder.Binder?
    var registration: Registration
    var session: Option<string>

    function View(): State
      reads this, binder
    {
      State(
        if binder == null then None else Some(Binding(binder.tunnel, binder.enabled)),
        registration,
        session)
    }

    constructor ()
      ensures View() == INITIAL
    {
      binder, registration, session := null, Unattempted, None;
    }

    /** `here` tells a new binder from one that was stored before; `ok` that one is stored now. */
    method PrepareLocked(name: string, ttl: int, accepted: bool) returns (here: bool, ok: bool)
      modifies this`binder, this`registration
      ensures View() == PutBinding(old(View()), name, accepted)
      ensures here <==> old(binder) == null && binder != null
      ensures ok <==> binder != null
      ensures old(binder) != null ==> binder == old(binder)
      ensures old(binder) == null && binder != null ==> fresh(binder)
    {
      if binder != null {
        return false, true;
      }
      var next := new Binder.Binder(name, ttl);
      next.SetEnabled();
      if registration == Unattempted {
        registration := if accepted then Registered else Refused;
      }
      if registration == Refused {
        return false, false;
      }
      binder := next;
      return true, true;
    }

    method ReleaseLocked()
      modifies this`binder, binder
      ensures View() == old(View()).(binding := None)
      ensures old(binder) != null ==> !old(binder).enabled
    {
      if binder != null {
        binder.SetDisabled();
        binder := null;
      }
    }

    method PrepareBinding(name: string, ttl: int, valid: bool, accepted: bool) returns (ok: bool)
      modifies this
      ensures View() == Step(old(View()), Prepare(name, valid, accepted))
      ensures ok <==> valid && View().binding.Some?
    {
      if !valid {
        return false;
      }
      var _, prepared := PrepareLocked(name, ttl, accepted);
      ok := prepared;
    }

    method OpenSession(plan: Option<string>, ttl: int, accepted: bool, opens: bool) returns (ok: bool)
      modifies this, binder
      ensures View() == Step(old(View()), Open(plan, accepted, opens))
      ensures ok <==> old(session).None? && session.Some?
    {
      if plan.None? {
        return false;
      }
      if session.Some? {
        return false;
      }
      var preparedHere, bound := PrepareLocked(plan.value, ttl, accepted);
      if !bound {
        return false;
      }
      if !opens {
        if preparedHere {
          ReleaseLocked();
        }
        return false;
      }
      session := plan;
      return true;
    }

    method CloseSession()
      modifies this, binder
      ensures View() == Step(old(View()), Close)
      ensures old(binder) != null ==> !old(binder).enabled
    {
      ReleaseLocked();
      session := None;
    }
  }

  // ---------- Between calls, no session without the binding ----------

  /** Dials of the core go through an enabled binder. */
  ghost predicate DialsAreBound(s: State) {
    s.registration == Registered && s.binding.Some? && s.binding.value.enabled
  }

  ghost predicate Inv(s: State) {
    (s.session.Some? ==> s.binding.Some?) && (s.binding.Some? ==> DialsAreBound(s))
  }

  lemma {:induction false} EveryRunKeepsInv(ops: seq<Op>)
    ensures Inv(Run(ops))
  {
    if ops != [] {
      EveryRunKeepsInv(ops[..|ops| - 1]);
    }
  }

  /** Between calls an open session has the binding in place, and so has every attempt to open one. */
  lemma NoSessionWithoutTheBinding(ops: seq<Op>, op: Op)
    ensures Run(ops).session.Some? ==> DialsAreBound(Run(ops))
    ensures Attempting(Run(ops), op).Some? ==> DialsAreBound(Attempting(Run(ops), op).value)
  {
    EveryRunKeepsInv(ops);
  }

  /** Opening the tunnel is attempted exactly when the call would open a session if the tunnel opened. */
  lemma AttemptsExactlyWhen(s: State, plan: Option<string>, accepted: bool, opens: bool)
    ensures Attempting(s, Open(plan, accepted, opens)).Some? <==>
      s.session.None? && Step(s, Open(plan, accepted, true)).session.Some?
  {
  }

  /** How often registering the dialer controller was attempted. */
  function Attempts(ops: seq<Op>): nat {
    if ops == [] then 0
    else
      var before := ops[..|ops| - 1];
      var s := Run(before);
      var op := ops[|ops| - 1];
      var reaches := (op.Prepare? && op.valid) || (op.Open? && op.plan.Some? && s.session.None?);
      Attempts(before) + if reaches && s.binding.None? && s.registration == Unattempted then 1 else 0
  }

  lemma {:induction false} RegistrationIsAttemptedAtMostOnce(ops: seq<Op>)
    ensures Attempts(ops) == if Run(ops).registration == Unattempted then 0 else 1
  {
    if ops != [] {
      RegistrationIsAttemptedAtMostOnce(ops[..|ops| - 1]);
      EveryRunKeepsInv(ops[..|ops| - 1]);
    }
  }

  /** After a refused registration no session is ever opened again. */
  lemma {:induction false} RefusalIsFinal(ops: seq<Op>, more: seq<Op>)
    requires Run(ops).registration == Refused
    ensures Run(ops + more).registration == Refused && Run(ops + more).session.None?
    decreases |more|
  {
    EveryRunKeepsInv(ops + more);
    if more == [] {
      assert ops + more == ops;
    } else {
      RefusalIsFinal(ops, more[..|more| - 1]);
      assert (ops + more)[..|ops + more| - 1] == ops + more[..|more| - 1];
    }
  }

  /**
   A session opens exactly when there is none, the plan is valid, the tunnel opens, and a binding
   is there or can be put there.
   */
  lemma {:induction false} OpenSucceedsExactlyWhen(ops: seq<Op>, plan: Option<string>, accepted: bool, opens: bool)
    ensures var s, t := Run(ops), Step(Run(ops), Open(plan, accepted, opens));
      (s.session.None? && t.session.Some?) <==>
        s.session.None? && plan.Some? && opens
        && (s.registration == Registered || (s.registration == Unattempted && accepted))
  {
    EveryRunKeepsInv(ops);
  }

  /** A failed Open restores the session and the binding; only the registration may have been decided. */
  lemma {:induction false} FailedOpenRestores(ops: seq<Op>, plan: Option<string>, accepted: bool, opens: bool)
    ensures var s, t := Run(ops), Step(Run(ops), Open(plan, accepted, opens));
      t.session == s.session ==> t.binding == s.binding && (s.registration != Unattempted ==> t == s)
  {
    EveryRunKeepsInv(ops);
  }

  /** Closing always clears both, and closing again changes nothing. */
  lemma CloseClears(ops: seq<Op>)
    ensures var s := Step(Run(ops), Close);
      s.session.None? && s.binding.None? && s.registration == Run(ops).registration && Step(s, Close) == s
  {
  }

  /** A new session is bound for its own tunnel exactly when no binding was made for another before it. */
  lemma {:induction false} BindingIsForTheSessionExactlyWhen(ops: seq<Op>, plan: string, accepted: bool)
    ensures var s, t := Run(ops), Step(Run(ops), Open(Some(plan), accepted, true));
      s.session.None? && t.session.Some? ==>
        (t.binding.value.tunnel == plan <==> s.binding.None? || s.binding.value.tunnel == plan)
  {
    EveryRunKeepsInv(ops);
  }

  /** Preparing for one tunnel and opening another leaves the session with the earlier binding. */
  lemma EarlierBindingIsKept(first: string, second: string)
    requires first != second
    ensures Run([Prepare(first, true, true), Open(Some(second), true, true)])
      == State(Some(Binding(first, true)), Registered, Some(second))
  {
    var ops := [Prepare(first, true, true), Open(Some(second), true, true)];
    var prepared := ops[..1];
    assert prepared[..0] == [] && prepared[0] == ops[0];
    assert Run(prepared) == State(Some(Binding(first, true)), Registered, None);
  }
}
