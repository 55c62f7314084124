/**
 Pausing the periodic garbage collection while a core starts.

 Pauses nest across concurrent starts. The first one turns the collector off and keeps the percentage
 it had; the last one to end puts that percentage back. Each start restores through a token of its
 own, which may be used any number of times: only the first use counts. The state is the number of
 holders, the percentage kept, the percentage in force and the tokens that have been used.
 */
module GcPause {
  /** The percentage that disables the collector. */
  const OFF := -1

  /** `restored[i]` says whether the i-th token has been used. */
  datatype State = State(holders: int, previous: int, percent: int, restored: seq<bool>)

  datatype Op = Pause | Restore(token: nat)

  function PauseIn(s: State): State {
    State(
      s.holders + 1,
      if s.holders == 0 then s.percent else s.previous,
      if s.holders == 0 then OFF else s.percent,
      s.restored + [false])
  }

  function RestoreIn(s: State, token: nat): State {
    if token >= |s.restored| || s.restored[token] then s
    else
      State(
        s.holders - 1,
        s.previous,
        if s.holders == 1 then s.previous else s.percent,
        s.restored[token := true])
  }

  function Step(s: State, op: Op): State {
    match op
    case Pause => PauseIn(s)
    case Restore(token) => RestoreIn(s, token)
  }

  /** A run from the percentage the process was started with. */
  function Run(base: int, ops: seq<Op>): State {
    if ops == [] then State(0, 0, base, []) else Step(Run(base, ops[..|ops| - 1]), ops[|ops| - 1])
  }

  // ---------- The pause and its tokens ----------

  class Collector {
    var holders: int
    var previous: int
    var percent: int

    /** The state, given which tokens have been used. */
    function View(restored: seq<bool>): State
      reads this
    {
      State(holders, previous, percent, restored)
    }

    constructor (base: int)
      ensures View([]) == Run(base, [])
    {
      holders, previous, percent := 0, 0, base;
    }

    method SetPercent(percent: int) returns (old_: int)
      modifies this`percent
      ensures old_ == old(this.percent) && this.percent == percent
    {
      old_ := this.percent;
      this.percent := percent;
    }

    method PauseForStartup() returns (token: Token)
      modifies this
      ensures fresh(token) && token.collector == this && !token.used
      ensures forall restored :: View(restored + [false]) == PauseIn(old(View(restored)))
    {
      if holders == 0 {
        previous := SetPercent(OFF);
      }
      holders := holders + 1;
      token := new Token(this);
    }
  }

  /** What a pause returns; only its first use counts. */
  class Token {
    const collector: Collector
    var used: bool

    constructor (collector: Collector)
      ensures this.collector == collector && !used
    {
      this.collector, used := collector, false;
    }

    method Restore()
      modifies this, collector
      ensures used
      ensures forall before: seq<bool>, after: seq<bool> ::
        collector.View(before + [used] + after) == RestoreIn(old(collector.View(before + [used] + after)), |before|)
    {
      if !used {
        used := true;
        collector.holders := collector.holders - 1;
        if collector.holders == 0 {
          var _ := collector.SetPercent(collector.previous);
        }
        assert forall before: seq<bool>, after: seq<bool> ::
          (before + [false] + after)[|before| := true] == before + [true] + after;
      }
    }
  }

  // ---------- Every run ----------

  /** The tokens that have not been used. */
  function Unrestored(restored: seq<bool>): nat {
    if restored == [] then 0
    else Unrestored(restored[..|restored| - 1]) + if restored[|restored| - 1] then 0 else 1
  }

  lemma {:induction false} UseOneToken(restored: seq<bool>, token: nat)
    requires token < |restored| && !restored[token]
    ensures Unrestored(restored[token := true]) == Unrestored(restored) - 1
    ensures Unrestored(restored) > 0
  {
    var front := restored[..|restored| - 1];
    if token < |front| {
      UseOneToken(front, token);
      assert restored[token := true][..|front|] == front[token := true];
    } else {
      assert restored[token := true][..|front|] == front;
    }
  }

  ghost predicate Inv(base: int, s: State) {
    && s.holders == Unrestored(s.restored)
    && s.percent == (if s.holders > 0 then OFF else base)
    && (s.holders > 0 ==> s.previous == base)
  }

  /**
   After any pauses and restores the holders are the unused tokens, the collector is off while
   there are any and back at its own percentage when there are none, and what is kept to be
   restored is always that percentage, never the disabled one of an outer pause.
   */
  lemma {:induction false} HoldersAreTheUnusedTokens(base: int, ops: seq<Op>)
    ensures Inv(base, Run(base, ops))
  {
    if ops != [] {
      HoldersAreTheUnusedTokens(base, ops[..|ops| - 1]);
      var s := Run(base, ops[..|ops| - 1]);
      match ops[|ops| - 1]
      case Pause =>
        assert (s.restored + [false])[..|s.restored|] == s.restored;
      case Restore(token) =>
        if token < |s.restored| && !s.restored[token] {
          UseOneToken(s.restored, token);
        }
    }
  }

  lemma {:induction false} AllUsed(restored: seq<bool>)
    ensures Unrestored(restored) == 0 <==> forall i :: 0 <= i < |restored| ==> restored[i]
  {
    if restored != [] {
      AllUsed(restored[..|restored| - 1]);
    }
  }

  /** A collector that was on is off exactly while some token is unused. */
  lemma OffExactlyWhilePaused(base: int, ops: seq<Op>)
    requires base != OFF
    ensures Run(base, ops).percent == OFF <==>
      exists i :: 0 <= i < |Run(base, ops).restored| && !Run(base, ops).restored[i]
    ensures Run(base, ops).percent != OFF ==> Run(base, ops).percent == base
  {
    HoldersAreTheUnusedTokens(base, ops);
    AllUsed(Run(base, ops).restored);
  }

  /** Using a token again changes nothing, whatever happened in between. */
  lemma {:induction false} RestoreIsIdempotent(base: int, ops: seq<Op>, more: seq<Op>, token: nat)
    requires token < |Run(base, ops).restored|
    ensures var s := Run(base, ops + [Restore(token)] + more);
      token < |s.restored| && s.restored[token] && RestoreIn(s, token) == s
    decreases |more|
  {
    var used := ops + [Restore(token)];
    assert used[..|ops|] == ops;
    if more == [] {
      assert used + more == used;
    } else {
      RestoreIsIdempotent(base, ops, more[..|more| - 1], token);
      assert (used + more)[..|used + more| - 1] == used + more[..|more| - 1];
    }
  }
}
