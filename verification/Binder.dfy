/**
 The dialer controller that pins the core's outbound sockets to the physical interface: a lookup
 cached for a limited time, with each change of the chosen interface announced once.
 */
module Binder {
  import opened Wrappers

  /** What a lookup returns: an interface, and whether there is one. */
  datatype Choice = Choice(iface: string, ok: bool)

  const NO_CHOICE := Choice("", false)

  /** The interface a failed bind named, and the error's text. */
  datatype BindError = BindError(iface: string, error: string)

  datatype State = State(
    enabled: bool,
    choice: Choice,
    refreshed: Option<int>,
    announced: bool,
    reported: set<string>)

  const INITIAL := State(false, NO_CHOICE, None, false, {})

  /** What happens to a binder; a query brings the time and what a lookup would return just then. */
  datatype Op =
    | Enable
    | Disable
    | Query(now: int, lookup: Choice)
    | Report(failure: BindError)

  // ---------- One step ----------

  predicate Expired(s: State, ttl: int, now: int) {
    s.refreshed.None? || now - s.refreshed.value >= ttl
  }

  /** A query looks the interface up again. */
  predicate LooksUp(s: State, ttl: int, op: Op) {
    op.Query? && s.enabled && Expired(s, ttl, op.now)
  }

  /** A lookup that is heard. */
  predicate Announces(s: State, lookup: Choice) { !s.announced || lookup != s.choice }

  function Key(f: BindError): string { f.iface + ['\0'] + f.error }

  function Step(s: State, ttl: int, op: Op): State {
    match op
    case Enable => s.(enabled := true, refreshed := None)
    case Disable => s.(enabled := false)
    case Query(now, lookup) =>
      if LooksUp(s, ttl, op) then s.(choice := lookup, refreshed := Some(now), announced := true) else s
    case Report(failure) => s.(reported := s.reported + {Key(failure)})
  }

  /** What a query returns in the state it leaves. */
  function Answer(s: State): Choice { if s.enabled then s.choice else NO_CHOICE }

  function Run(ttl: int, ops: seq<Op>): State {
    if ops == [] then INITIAL else Step(Run(ttl, ops[..|ops| - 1]), ttl, ops[|ops| - 1])
  }

  // ---------- The binder ----------

  class Binder {
    /** The tunnel whose interface the lookup leaves out. */
    const tunnel: string
    const ttl: int
    var enabled: bool
    var iface: string
    var ok: bool
    var refreshed: Option<int>
    var announced: bool
    var reported: set<string>

    function View(): State
      reads this
    {
      State(enabled, Choice(iface, ok), refreshed, announced, reported)
    }

    constructor (tunnel: string, ttl: int)
      ensures View() == INITIAL && this.tunnel == tunnel && this.ttl == ttl
    {
      this.tunnel, this.ttl := tunnel, ttl;
      enabled, iface, ok, refreshed, announced, reported := false, "", false, None, false, {};
    }

    method SetEnabled()
      modifies this
      ensures View() == Step(old(View()), ttl, Enable)
    {
      enabled, refreshed := true, None;
    }

    method SetDisabled()
      modifies this
      ensures View() == Step(old(View()), ttl, Disable)
    {
      enabled := false;
    }

    /** The interface to use; `heard` is the change that was announced, if any. */
    method Current(now: int, lookup: Choice) returns (answer: Choice, heard: Option<Choice>)
      modifies this
      ensures View() == Step(old(View()), ttl, Query(now, lookup))
      ensures answer == Answer(View())
      ensures heard ==
        if LooksUp(old(View()), ttl, Query(now, lookup)) && Announces(old(View()), lookup) then Some(lookup) else None
    {
      heard := None;
      if !enabled {
        return NO_CHOICE, None;
      }
      if refreshed.None? || now - refreshed.value >= ttl {
        var changed := !announced || lookup.iface != iface || lookup.ok != ok;
        iface, ok, refreshed, announced := lookup.iface, lookup.ok, Some(now), true;
        if changed {
          heard := Some(lookup);
        }
      }
      answer := Choice(iface, ok);
    }

    /** Whether this failure is the first of its kind, which is then the only one to be heard. */
    method ReportBindError(failure: BindError) returns (first: bool)
      modifies this`reported
      ensures View() == Step(old(View()), ttl, Report(failure))
      ensures first <==> Key(failure) !in old(reported)
    {
      var key := Key(failure);
      first := key !in reported;
      reported := reported + {key};
    }

    /**
     One socket: a loopback socket is left alone, any other is bound to the current interface. A
     failed bind is reported and never fails the dial.
     */
    method Control(loopback: bool, now: int, lookup: Choice, bindError: Option<string>)
      returns (bound: Option<string>, heard: Option<Choice>, complaint: Option<BindError>)
      modifies this
      ensures loopback ==> View() == old(View()) && bound.None? && heard.None? && complaint.None?
      ensures !loopback ==>
        heard == (
          if LooksUp(old(View()), ttl, Query(now, lookup)) && Announces(old(View()), lookup) then Some(lookup)
          else None)
      ensures !loopback ==>
        var queried := Step(old(View()), ttl, Query(now, lookup));
        var choice := Answer(queried);
        && bound == (if choice.ok then Some(choice.iface) else None)
        && (if choice.ok && bindError.Some? then
              var failure := BindError(choice.iface, bindError.value);
              View() == Step(queried, ttl, Report(failure))
              && complaint == if Key(failure) in queried.reported then None else Some(failure)
            else View() == queried && complaint.None?)
    {
      bound, heard, complaint := None, None, None;
      if loopback {
        return;
      }
      var choice;
      choice, heard := Current(now, lookup);
      if !choice.ok {
        return;
      }
      bound := Some(choice.iface);
      if bindError.Some? {
        var failure := BindError(choice.iface, bindError.value);
        var first := ReportBindError(failure);
        if first {
          complaint := Some(failure);
        }
      }
    }
  }

  // ---------- Switching ----------

  /** Whether the latest switch was on. */
  predicate SwitchedOn(ops: seq<Op>) {
    ops != []
    && (ops[|ops| - 1].Enable? || (!ops[|ops| - 1].Disable? && SwitchedOn(ops[..|ops| - 1])))
  }

  /** A binder answers with an interface only while it is switched on, and with none otherwise. */
  lemma {:induction false} OffAnswersNothing(ttl: int, ops: seq<Op>)
    ensures Run(ttl, ops).enabled <==> SwitchedOn(ops)
    ensures !SwitchedOn(ops) ==> Answer(Run(ttl, ops)) == Choice("", false)
  {
    if ops != [] {
      OffAnswersNothing(ttl, ops[..|ops| - 1]);
    }
  }

  // ---------- Freshness ----------

  /** Times never go back. */
  ghost predicate Monotone(ops: seq<Op>) {
    forall i, j :: 0 <= i < j < |ops| && ops[i].Query? && ops[j].Query? ==> ops[i].now <= ops[j].now
  }

  /** The index of the latest query that looked the interface up. */
  function LastLookup(ttl: int, ops: seq<Op>): (r: Option<nat>)
    ensures r.Some? ==> r.value < |ops| && ops[r.value].Query? && LooksUp(Run(ttl, ops[..r.value]), ttl, ops[r.value])
  {
    if ops == [] then None
    else
      var before := ops[..|ops| - 1];
      if LooksUp(Run(ttl, before), ttl, ops[|ops| - 1]) then Some(|before|)
      else
        var r := LastLookup(ttl, before);
        assert r.Some? ==> before[..r.value] == ops[..r.value];
        r
  }

  /** The index after the latest Enable. */
  function EnabledSince(ops: seq<Op>): (r: nat)
    ensures r <= |ops| && (r > 0 ==> ops[r - 1] == Enable)
    ensures forall i :: r <= i < |ops| ==> ops[i] != Enable
  {
    if ops == [] then 0
    else if ops[|ops| - 1] == Enable then |ops|
    else EnabledSince(ops[..|ops| - 1])
  }

  /** The cache holds the result of the latest lookup, and its time unless Enable came after it. */
  lemma {:induction false} CacheIsTheLastLookup(ttl: int, ops: seq<Op>)
    ensures var s, last := Run(ttl, ops), LastLookup(ttl, ops);
      && (s.announced <==> last.Some?)
      && (last.Some? ==> s.choice == ops[last.value].lookup)
      && s.refreshed == (if last.Some? && last.value >= EnabledSince(ops) then Some(ops[last.value].now) else None)
  {
    if ops != [] {
      CacheIsTheLastLookup(ttl, ops[..|ops| - 1]);
    }
  }

  /**
   An interface is only ever returned from a lookup younger than the limit and no older than the
   latest Enable; and a lookup is made exactly when there is none such.
   */
  lemma {:induction false} AnswersAreFresh(ttl: int, ops: seq<Op>, now: int, lookup: Choice)
    requires ttl > 0 && Monotone(ops + [Query(now, lookup)]) && Run(ttl, ops).enabled
    ensures var whole := ops + [Query(now, lookup)];
      var last := LastLookup(ttl, whole);
      && last.Some? && last.value >= EnabledSince(whole)
      && Answer(Run(ttl, whole)) == whole[last.value].lookup
      && 0 <= now - whole[last.value].now < ttl
    ensures LooksUp(Run(ttl, ops), ttl, Query(now, lookup)) <==>
      !exists i :: EnabledSince(ops) <= i < |ops| && IsLookup(ttl, ops, i) && now - ops[i].now < ttl
  {
    var whole := ops + [Query(now, lookup)];
    assert whole[..|ops|] == ops;
    CacheIsTheLastLookup(ttl, whole);
    CacheIsTheLastLookup(ttl, ops);
    var last := LastLookup(ttl, whole).value;
    assert whole[last].now <= whole[|ops|].now;
    if LooksUp(Run(ttl, ops), ttl, Query(now, lookup)) {
      forall i | EnabledSince(ops) <= i < |ops| && IsLookup(ttl, ops, i) ensures now - ops[i].now >= ttl {
        LookupsAreBeforeTheLast(ttl, ops, i);
        assert whole[i] == ops[i] && whole[LastLookup(ttl, ops).value] == ops[LastLookup(ttl, ops).value];
      }
    } else {
      assert IsLookup(ttl, ops, last);
    }
  }

  /** The i-th step looked the interface up. */
  predicate IsLookup(ttl: int, ops: seq<Op>, i: nat)
    requires i < |ops|
  {
    ops[i].Query? && LooksUp(Run(ttl, ops[..i]), ttl, ops[i])
  }

  lemma {:induction false} LookupsAreBeforeTheLast(ttl: int, ops: seq<Op>, i: nat)
    requires i < |ops| && IsLookup(ttl, ops, i)
    ensures LastLookup(ttl, ops).Some? && i <= LastLookup(ttl, ops).value
  {
    var before := ops[..|ops| - 1];
    if i < |before| {
      assert before[..i] == ops[..i];
      LookupsAreBeforeTheLast(ttl, before, i);
    } else {
      assert before == ops[..i];
    }
  }

  // ---------- Announcements ----------

  /** All that the lookups returned. */
  function Lookups(ttl: int, ops: seq<Op>): seq<Choice> {
    if ops == [] then []
    else
      var before, op := ops[..|ops| - 1], ops[|ops| - 1];
      Lookups(ttl, before) + if LooksUp(Run(ttl, before), ttl, op) then [op.lookup] else []
  }

  /** All changes of the chosen interface that were announced. */
  function Heard(ttl: int, ops: seq<Op>): seq<Choice> {
    if ops == [] then []
    else
      var before, op := ops[..|ops| - 1], ops[|ops| - 1];
      var s := Run(ttl, before);
      Heard(ttl, before) + if LooksUp(s, ttl, op) && Announces(s, op.lookup) then [op.lookup] else []
  }

  /** A sequence with consecutive repeats removed. */
  function Distinct<T(==)>(s: seq<T>): (r: seq<T>)
    ensures s == [] <==> r == []
    ensures s != [] ==> r[|r| - 1] == s[|s| - 1]
    ensures forall i :: 0 <= i < |r| - 1 ==> r[i] != r[i + 1]
  {
    if |s| <= 1 then s
    else
      var front, last := s[..|s| - 1], s[|s| - 1];
      if front[|front| - 1] == last then Distinct(front) else Distinct(front) + [last]
  }

  lemma {:induction false} DistinctAppend<T>(s: seq<T>, x: T)
    ensures Distinct(s + [x]) == if s != [] && s[|s| - 1] == x then Distinct(s) else Distinct(s) + [x]
  {
    assert (s + [x])[..|s|] == s;
  }

  lemma {:induction false} CacheEndsTheLookups(ttl: int, ops: seq<Op>)
    ensures var s, all := Run(ttl, ops), Lookups(ttl, ops);
      (s.announced <==> all != []) && (s.announced ==> s.choice == all[|all| - 1])
  {
    if ops != [] {
      CacheEndsTheLookups(ttl, ops[..|ops| - 1]);
    }
  }

  /** Over a whole run, across Disable and Enable, the announcements are the lookups without consecutive repeats. */
  lemma {:induction false} AnnouncementsAreTheDistinctLookups(ttl: int, ops: seq<Op>)
    ensures Heard(ttl, ops) == Distinct(Lookups(ttl, ops))
  {
    hide Run;
    if ops != [] {
      var before, op := ops[..|ops| - 1], ops[|ops| - 1];
      AnnouncementsAreTheDistinctLookups(ttl, before);
      hide Distinct;
      CacheEndsTheLookups(ttl, before);
      if LooksUp(Run(ttl, before), ttl, op) {
        DistinctAppend(Lookups(ttl, before), op.lookup);
      } else {
        assert Lookups(ttl, ops) == Lookups(ttl, before) && Heard(ttl, ops) == Heard(ttl, before);
      }
    }
  }

  // ---------- Bind errors ----------

  /** Every failed bind of a run, heard or not. */
  function Failures(ops: seq<Op>): seq<BindError> {
    if ops == [] then []
    else
      var op := ops[|ops| - 1];
      Failures(ops[..|ops| - 1]) + if op.Report? then [op.failure] else []
  }

  /** The failures that were heard. */
  function Complaints(ttl: int, ops: seq<Op>): seq<BindError> {
    if ops == [] then []
    else
      var before, op := ops[..|ops| - 1], ops[|ops| - 1];
      Complaints(ttl, before) + if op.Report? && Key(op.failure) !in Run(ttl, before).reported then [op.failure] else []
  }

  /** A sequence with only the first occurrence of each element. */
  function Firsts<T(==,!new)>(s: seq<T>): (r: seq<T>)
    ensures forall x :: x in r <==> x in s
    ensures forall i, j :: 0 <= i < j < |r| ==> r[i] != r[j]
  {
    if s == [] then []
    else
      var front, last := s[..|s| - 1], s[|s| - 1];
      assert s == front + [last];
      if last in front then Firsts(front) else Firsts(front) + [last]
  }

  lemma {:induction false} FirstsAppend<T(!new)>(s: seq<T>, x: T)
    ensures Firsts(s + [x]) == if x in s then Firsts(s) else Firsts(s) + [x]
  {
    assert (s + [x])[..|s|] == s;
  }

  predicate NoNul(s: string) { '\0' !in s }

  lemma KeyIsInjectiveWithoutNul(a: BindError, b: BindError)
    requires Key(a) == Key(b) && NoNul(a.iface) && NoNul(b.iface)
    ensures a == b
  {
    var key := Key(a);
    assert key[|a.iface|] == '\0' && key[|b.iface|] == '\0';
    assert forall i :: 0 <= i < |a.iface| ==> key[i] == a.iface[i];
    assert forall i :: 0 <= i < |b.iface| ==> key[i] == b.iface[i];
    assert |a.iface| == |b.iface|;
    assert a.iface == key[..|a.iface|] == b.iface;
    assert a.error == key[|a.iface| + 1..] == b.error;
  }

  lemma {:induction false} ReportedKeys(ttl: int, ops: seq<Op>)
    ensures forall k :: k in Run(ttl, ops).reported <==> exists f :: f in Failures(ops) && Key(f) == k
  {
    hide Key, LooksUp;
    if ops != [] {
      var before, op := ops[..|ops| - 1], ops[|ops| - 1];
      ReportedKeys(ttl, before);
      if op.Report? {
        assert Failures(ops) == Failures(before) + [op.failure];
      }
    }
  }

  lemma {:induction false} HeardFailuresHappened(ttl: int, ops: seq<Op>)
    ensures forall f :: f in Complaints(ttl, ops) ==> f in Failures(ops)
  {
    hide Key, Run;
    if ops != [] {
      HeardFailuresHappened(ttl, ops[..|ops| - 1]);
    }
  }

  ghost predicate KeysUnique(heard: seq<BindError>) {
    forall i, j :: 0 <= i < j < |heard| ==> Key(heard[i]) != Key(heard[j])
  }

  lemma UniqueAppend(heard: seq<BindError>, f: BindError)
    requires KeysUnique(heard) && forall g :: g in heard ==> Key(g) != Key(f)
    ensures KeysUnique(heard + [f])
  {
    hide Key;
    var longer := heard + [f];
    forall i, j | 0 <= i < j < |longer| ensures Key(longer[i]) != Key(longer[j]) {
      assert longer[i] == heard[i] && heard[i] in heard;
    }
  }

  /** No two failures that are heard share a key, so no pair of interface and error text is heard twice. */
  lemma {:induction false} NothingIsHeardTwice(ttl: int, ops: seq<Op>)
    ensures KeysUnique(Complaints(ttl, ops))
  {
    hide Key, Run, KeysUnique;
    if ops == [] {
      NothingHeard();
    } else {
      var before, op := ops[..|ops| - 1], ops[|ops| - 1];
      NothingIsHeardTwice(ttl, before);
      HeardFailuresHappened(ttl, before);
      ReportedKeys(ttl, before);
      if op.Report? && Key(op.failure) !in Run(ttl, before).reported {
        UniqueAppend(Complaints(ttl, before), op.failure);
      } else {
        assert Complaints(ttl, ops) == Complaints(ttl, before);
      }
    }
  }

  lemma NothingHeard()
    ensures KeysUnique([])
  {
  }

  /** Different failures have different keys. */
  ghost predicate KeysDiffer(failures: seq<BindError>) {
    forall f, g :: f in failures && g in failures && Key(f) == Key(g) ==> f == g
  }

  /** Exactly the first failure of each key is heard, when keys tell the failures of the run apart. */
  lemma {:induction false} FirstsAreHeard(ttl: int, ops: seq<Op>)
    requires KeysDiffer(Failures(ops))
    ensures Complaints(ttl, ops) == Firsts(Failures(ops))
  {
    hide Key, Run, Firsts;
    if ops == [] {
      EmptyFirsts();
    } else {
      var before, op := ops[..|ops| - 1], ops[|ops| - 1];
      var earlier := Failures(before);
      assert forall f :: f in earlier ==> f in Failures(ops);
      FirstsAreHeard(ttl, before);
      if op.Report? {
        assert op.failure in Failures(ops);
        ReportedKeys(ttl, before);
        FirstsAppend(earlier, op.failure);
        assert Key(op.failure) in Run(ttl, before).reported <==> op.failure in earlier;
        assert Failures(ops) == earlier + [op.failure];
      } else {
        assert Failures(ops) == earlier && Complaints(ttl, ops) == Complaints(ttl, before);
      }
    }
  }

  /**
   Over a whole run exactly the first occurrence of each pair of interface and error text is heard,
   if and only if no two different pairs of the run share a key.
   */
  lemma {:induction false} FirstFailuresAreHeardExactlyWhen(ttl: int, ops: seq<Op>)
    ensures Complaints(ttl, ops) == Firsts(Failures(ops)) <==> KeysDiffer(Failures(ops))
  {
    hide Key;
    NothingIsHeardTwice(ttl, ops);
    if KeysDiffer(Failures(ops)) {
      FirstsAreHeard(ttl, ops);
    }
  }

  /** Without NUL in the interface names, exactly the first occurrence of each pair is heard. */
  lemma {:induction false} ComplaintsAreTheFirstFailures(ttl: int, ops: seq<Op>)
    requires forall f :: f in Failures(ops) ==> NoNul(f.iface)
    ensures Complaints(ttl, ops) == Firsts(Failures(ops))
  {
    hide Key, NoNul;
    forall f, g | f in Failures(ops) && g in Failures(ops) && Key(f) == Key(g) ensures f == g {
      KeyIsInjectiveWithoutNul(f, g);
    }
    FirstFailuresAreHeardExactlyWhen(ttl, ops);
  }

  lemma EmptyFirsts()
    ensures Firsts<BindError>([]) == []
  {
  }

  predicate StartsWith(s: string, prefix: string) { prefix <= s }

  /** Two names can share a key for some error texts exactly when one continues the other after a NUL. */
  lemma {:induction false} NamesShareAKeyExactlyWhen(a: string, b: string)
    requires a != b
    ensures (exists e, f :: Key(BindError(a, e)) == Key(BindError(b, f))) <==>
      StartsWith(b, a + ['\0']) || StartsWith(a, b + ['\0'])
  {
    if e, f :| Key(BindError(a, e)) == Key(BindError(b, f)) {
      SharedKey(a, b, e, f);
    }
    if StartsWith(b, a + ['\0']) {
      Continued(a, b);
    }
    if StartsWith(a, b + ['\0']) {
      Continued(b, a);
    }
  }

  lemma SharedKey(a: string, b: string, e: string, f: string)
    requires a != b && Key(BindError(a, e)) == Key(BindError(b, f))
    ensures StartsWith(b, a + ['\0']) || StartsWith(a, b + ['\0'])
  {
    var key := Key(BindError(a, e));
    assert key[..|a|] == a && key[..|b|] == b && key[|a|] == '\0' && key[|b|] == '\0';
    assert |a| < |b| ==> key[..|a| + 1] == a + ['\0'];
    assert |b| < |a| ==> key[..|b| + 1] == b + ['\0'];
  }

  lemma Continued(a: string, b: string)
    requires StartsWith(b, a + ['\0'])
    ensures Key(BindError(a, b[|a| + 1..])) == b
    ensures Key(BindError(a, b[|a| + 1..] + ['\0'])) == Key(BindError(b, ""))
  {
    assert b == a + ['\0'] + b[|a| + 1..];
  }
}
