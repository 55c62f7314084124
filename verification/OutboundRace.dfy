/**
 The race between outbounds.

 The candidates are probed at once and the results taken as they arrive. The loop ends early as soon
 as waiting longer is not worth it: after a quick first answer, or with a success once enough results
 are in, or when the time is up. The order of arrival is an input, so what is proved holds of every
 order; the result is the winner together with the number of results that were waited for.
 */
module OutboundRace {
  import opened Wrappers
  import opened Text

  /** What one probe reports; a failed one has no usable latency. */
  datatype Probe = Probe(tag: string, latency: int, failed: bool)

  const QUICK := 350

  predicate Succeeded(p: Probe) { !p.failed && p.latency >= 0 }

  ghost predicate AnySuccess(results: seq<Probe>) {
    exists i :: 0 <= i < |results| && Succeeded(results[i])
  }

  /** The i-th result is the earliest success of the lowest latency. */
  ghost predicate IsFastest(results: seq<Probe>, i: int) {
    && 0 <= i < |results| && Succeeded(results[i])
    && (forall j :: 0 <= j < i && Succeeded(results[j]) ==> results[j].latency > results[i].latency)
    && (forall j :: i < j < |results| && Succeeded(results[j]) ==> results[j].latency >= results[i].latency)
  }

  /** What the race returns for the results it has received. */
  ghost predicate IsWinner(candidates: seq<string>, results: seq<Probe>, winner: string)
    requires candidates != []
  {
    if AnySuccess(results) then exists i :: IsFastest(results, i) && winner == results[i].tag
    else winner == candidates[0]
  }

  /** With a success known, this many results are enough of `n`. */
  function Enough(n: nat): nat { if (n + 1) / 2 < 3 then (n + 1) / 2 else 3 }

  /** The latest result is the first success, and a quick one. */
  ghost predicate QuickFirst(results: seq<Probe>) {
    results != [] && Succeeded(results[|results| - 1]) && results[|results| - 1].latency < QUICK
    && !AnySuccess(results[..|results| - 1])
  }

  /** The race is over once `k` results of `n` have come in. */
  ghost predicate Over(n: nat, arrivals: seq<Probe>, deadline: Option<nat>, k: nat)
    requires k <= |arrivals|
  {
    || k == n
    || deadline == Some(k)
    || (k > 0 && AnySuccess(arrivals[..k]) && k >= Enough(n))
    || QuickFirst(arrivals[..k])
  }

  /** A race ends as soon as it is over, with the winner of the results received by then. */
  ghost predicate IsRace(
    candidates: seq<string>, arrivals: seq<Probe>, deadline: Option<nat>, received: nat, winner: string)
    requires candidates != [] && |arrivals| == |candidates|
  {
    && received <= |candidates|
    && Over(|candidates|, arrivals, deadline, received)
    && (forall k: nat :: k < received ==> !Over(|candidates|, arrivals, deadline, k))
    && IsWinner(candidates, arrivals[..received], winner)
  }

  // ---------- The receive loop ----------

  /** `fastest` is the tag and latency of the earliest fastest success, if there is one. */
  ghost predicate Tracks(results: seq<Probe>, fastest: Option<Probe>) {
    match fastest
    case None => !AnySuccess(results)
    case Some(p) => exists i :: IsFastest(results, i) && results[i] == p
  }

  function Keep(fastest: Option<Probe>, p: Probe): Option<Probe> {
    if !Succeeded(p) then fastest
    else if fastest.None? || p.latency < fastest.value.latency then Some(p)
    else fastest
  }

  lemma ReceiveOne(arrivals: seq<Probe>, k: nat, fastest: Option<Probe>)
    requires k < |arrivals| && Tracks(arrivals[..k], fastest)
    ensures Tracks(arrivals[..k + 1], Keep(fastest, arrivals[k]))
  {
    var earlier, results, p := arrivals[..k], arrivals[..k + 1], arrivals[k];
    assert forall j :: 0 <= j < k ==> results[j] == earlier[j];
    assert results[k] == p;
    if fastest.None? {
      assert forall j :: 0 <= j < k ==> !Succeeded(earlier[j]);
      if Succeeded(p) {
        assert IsFastest(results, k);
      }
    } else {
      var i :| IsFastest(earlier, i) && earlier[i] == fastest.value;
      if Succeeded(p) && p.latency < fastest.value.latency {
        assert IsFastest(results, k);
      } else {
        assert IsFastest(results, i);
      }
    }
  }

  lemma TracksWinner(candidates: seq<string>, results: seq<Probe>, fastest: Option<Probe>)
    requires candidates != [] && Tracks(results, fastest)
    ensures AnySuccess(results) <==> fastest.Some?
    ensures IsWinner(candidates, results, if fastest.Some? then fastest.value.tag else candidates[0])
  {
  }

  /**
   Receives results until the race is over. The deadline may pass after any number of results,
   or never.
   */
  method Race(candidates: seq<string>, arrivals: seq<Probe>, deadline: Option<nat>)
    returns (winner: string, received: nat)
    requires |candidates| >= 2 && |arrivals| == |candidates|
    ensures IsRace(candidates, arrivals, deadline, received, winner)
  {
    hide Tracks, IsWinner, AnySuccess;
    var n := |candidates|;
    var fastest: Option<Probe> := None;
    received := 0;
    NothingTracked(arrivals);
    while received < n
      invariant received <= n
      invariant Tracks(arrivals[..received], fastest)
      invariant fastest.Some? ==> received < Enough(n)
      invariant forall k: nat :: k < received ==> !Over(n, arrivals, deadline, k)
      invariant received == n || !QuickFirst(arrivals[..received])
    {
      TracksWinner(candidates, arrivals[..received], fastest);
      if deadline == Some(received) {
        return if fastest.Some? then fastest.value.tag else candidates[0], received;
      }
      assert !Over(n, arrivals, deadline, received);
      ReceiveOne(arrivals, received, fastest);
      var p := arrivals[received];
      assert arrivals[..received + 1][..received] == arrivals[..received];
      received := received + 1;
      TracksWinner(candidates, arrivals[..received], Keep(fastest, p));
      if Succeeded(p) {
        if fastest.None? {
          fastest := Some(p);
          if p.latency < QUICK {
            assert QuickFirst(arrivals[..received]);
            return p.tag, received;
          }
        } else if p.latency < fastest.value.latency {
          fastest := Some(p);
        }
      }
      if fastest.Some? && (received >= (n + 1) / 2 || received >= 3) {
        return fastest.value.tag, received;
      }
    }
    TracksWinner(candidates, arrivals[..received], fastest);
    // A known success has ended the loop earlier, so nothing is left to return but the first candidate.
    winner := candidates[0];
  }

  lemma NothingTracked(arrivals: seq<Probe>)
    ensures Tracks(arrivals[..0], None)
  {
  }

  // ---------- What a race means ----------

  /** The arrival order and the deadline decide the race. */
  lemma {:induction false} RaceIsDetermined(
    candidates: seq<string>, arrivals: seq<Probe>, deadline: Option<nat>, r1: nat, w1: string, r2: nat, w2: string)
    requires candidates != [] && |arrivals| == |candidates|
    requires IsRace(candidates, arrivals, deadline, r1, w1) && IsRace(candidates, arrivals, deadline, r2, w2)
    ensures r1 == r2 && w1 == w2
  {
    hide AnySuccess, Over;
    assert r1 == r2;
    var results := arrivals[..r1];
    if AnySuccess(results) {
      var i :| IsFastest(results, i) && w1 == results[i].tag;
      var j :| IsFastest(results, j) && w2 == results[j].tag;
      assert i == j;
    }
  }

  /** The winner is a candidate, if the probes report the tags they were given. */
  lemma {:induction false} WinnerIsACandidate(
    candidates: seq<string>, arrivals: seq<Probe>, deadline: Option<nat>, received: nat, winner: string)
    requires candidates != [] && |arrivals| == |candidates|
    requires forall i :: 0 <= i < |arrivals| ==> arrivals[i].tag in candidates
    requires IsRace(candidates, arrivals, deadline, received, winner)
    ensures winner in candidates
  {
    hide Over;
    if AnySuccess(arrivals[..received]) {
      var i :| IsFastest(arrivals[..received], i) && winner == arrivals[..received][i].tag;
      assert arrivals[..received][i] == arrivals[i];
    }
  }

  /** A race that goes on past enough results has had no success before its last result. */
  lemma {:induction false} LongRacesWaitForAFirstSuccess(
    candidates: seq<string>, arrivals: seq<Probe>, deadline: Option<nat>, received: nat, winner: string)
    requires |candidates| >= 2 && |arrivals| == |candidates|
    requires IsRace(candidates, arrivals, deadline, received, winner) && received > Enough(|candidates|)
    ensures forall i :: 0 <= i < received - 1 ==> !Succeeded(arrivals[i])
  {
    hide IsWinner;
    var results := arrivals[..received - 1];
    assert !Over(|candidates|, arrivals, deadline, received - 1);
    forall i | 0 <= i < received - 1 ensures !Succeeded(arrivals[i]) {
      assert results[i] == arrivals[i];
    }
  }

  /** A first success that is quick wins as soon as it arrives. */
  lemma {:induction false} QuickFirstSuccessWins(
    candidates: seq<string>, arrivals: seq<Probe>, deadline: Option<nat>, received: nat, winner: string, i: nat)
    requires |candidates| >= 2 && |arrivals| == |candidates|
    requires IsRace(candidates, arrivals, deadline, received, winner)
    requires i < received && Succeeded(arrivals[i]) && arrivals[i].latency < QUICK
    requires forall j :: 0 <= j < i ==> !Succeeded(arrivals[j])
    ensures received == i + 1 && winner == arrivals[i].tag
  {
    var results := arrivals[..i + 1];
    assert results[..i] == arrivals[..i] && results[i] == arrivals[i];
    assert QuickFirst(results);
    assert Over(|candidates|, arrivals, deadline, i + 1);
    assert received == i + 1;
    assert AnySuccess(results);
    var f :| IsFastest(results, f) && winner == results[f].tag;
    assert f == i;
  }

  // ---------- Choosing the candidates ----------

  function NonEmptyTrimmed(tags: seq<string>): (candidates: seq<string>)
    ensures forall c :: c in candidates ==> c != ""
  {
    if tags == [] then []
    else
      var rest, last := NonEmptyTrimmed(tags[..|tags| - 1]), TrimSpace(tags[|tags| - 1]);
      if last == "" then rest else rest + [last]
  }

  lemma TrimOneMore(tags: seq<string>, i: nat)
    requires i < |tags|
    ensures var earlier, trimmed := NonEmptyTrimmed(tags[..i]), TrimSpace(tags[i]);
      NonEmptyTrimmed(tags[..i + 1]) == if trimmed == "" then earlier else earlier + [trimmed]
  {
    hide TrimSpace;
    assert tags[..i + 1][..i] == tags[..i];
  }

  /** The candidates of a list of tags. */
  method Candidates(tags: seq<string>) returns (candidates: seq<string>)
    ensures candidates == NonEmptyTrimmed(tags)
  {
    hide TrimSpace, NonEmptyTrimmed;
    candidates := [];
    NoTags();
    for i := 0 to |tags|
      invariant candidates == NonEmptyTrimmed(tags[..i])
    {
      TrimOneMore(tags, i);
      var trimmed := TrimSpace(tags[i]);
      if trimmed != "" {
        candidates := candidates + [trimmed];
      }
    }
    assert tags[..|tags|] == tags;
  }

  lemma NoTags()
    ensures NonEmptyTrimmed([]) == []
  {
  }

  /** The tags of a comma-separated list that are candidates. */
  function CandidatesOf(list: string): seq<string> { NonEmptyTrimmed(Split(list, ",")) }

  lemma NoListNoCandidates()
    ensures CandidatesOf("") == []
  {
    assert Split("", ",") == [""] && TrimSpace("") == "";
    assert [""][..0] == [];
  }

  /**
   The whole selection. `ready` says that the configuration could be read and the test core created
   and started.
   */
  method FastSelectBestOutbound(
    config: string, list: string, ready: bool, arrivals: seq<Probe>, deadline: Option<nat>)
    returns (winner: string)
    requires |arrivals| == |CandidatesOf(list)|
    requires forall i :: 0 <= i < |arrivals| ==> arrivals[i].tag in CandidatesOf(list)
    ensures winner == "" <==> config == "" || CandidatesOf(list) == []
    ensures winner != "" ==> winner in CandidatesOf(list)
    ensures config != "" && |CandidatesOf(list)| >= 2 && ready ==>
      exists received :: IsRace(CandidatesOf(list), arrivals, deadline, received, winner)
    ensures config != "" && CandidatesOf(list) != [] && (|CandidatesOf(list)| == 1 || !ready) ==>
      winner == CandidatesOf(list)[0]
  {
    hide NonEmptyTrimmed, IsRace, Split;
    if config == "" || list == "" {
      NoListNoCandidates();
      return "";
    }
    var candidates := Candidates(Split(list, ","));
    if |candidates| == 0 {
      return "";
    }
    assert candidates[0] in candidates;
    if |candidates| == 1 || !ready {
      return candidates[0];
    }
    var received;
    winner, received := Race(candidates, arrivals, deadline);
    WinnerIsACandidate(candidates, arrivals, deadline, received, winner);
  }

  // ---------- The race, written out ----------

  /** A result that counts: no error, and a latency that is not negative. */
  ghost predicate Counts(p: Probe) { p.failed == false && 0 <= p.latency }

  /** The winner: of the results received that count, one with the lowest latency, and of these the first. */
  lemma WinnerWrittenOut(
    candidates: seq<string>, arrivals: seq<Probe>, deadline: Option<nat>, received: nat, winner: string)
    requires candidates != [] && |arrivals| == |candidates|
    requires IsRace(candidates, arrivals, deadline, received, winner)
    ensures (forall i :: 0 <= i < received ==> !Counts(arrivals[i])) ==> winner == candidates[0]
    ensures (exists i :: 0 <= i < received && Counts(arrivals[i])) ==>
      exists i :: 0 <= i < received && Counts(arrivals[i]) && winner == arrivals[i].tag
        && (forall j :: 0 <= j < received && Counts(arrivals[j]) ==> arrivals[i].latency <= arrivals[j].latency)
        && (forall j :: 0 <= j < i && Counts(arrivals[j]) ==> arrivals[i].latency < arrivals[j].latency)
  {
    hide Over, AnySuccess;
    var results := arrivals[..received];
    CountsAsSucceeded(arrivals, received);
    if AnySuccess(results) {
      var i :| IsFastest(results, i) && winner == results[i].tag;
      FastestWrittenOut(arrivals, received, i);
    }
  }

  lemma CountsAsSucceeded(arrivals: seq<Probe>, k: nat)
    requires k <= |arrivals|
    ensures forall i :: 0 <= i < k ==> (Counts(arrivals[i]) <==> Succeeded(arrivals[..k][i]))
    ensures AnySuccess(arrivals[..k]) <==> exists i :: 0 <= i < k && Counts(arrivals[i])
  {
    var results := arrivals[..k];
    assert forall i :: 0 <= i < k ==> results[i] == arrivals[i];
    assert forall i :: 0 <= i < k ==> (Counts(arrivals[i]) <==> Succeeded(results[i]));
  }

  lemma FastestWrittenOut(arrivals: seq<Probe>, k: nat, i: int)
    requires k <= |arrivals| && IsFastest(arrivals[..k], i)
    ensures 0 <= i < k && Counts(arrivals[i]) && arrivals[..k][i] == arrivals[i]
    ensures forall j :: 0 <= j < k && Counts(arrivals[j]) ==> arrivals[i].latency <= arrivals[j].latency
    ensures forall j :: 0 <= j < i && Counts(arrivals[j]) ==> arrivals[i].latency < arrivals[j].latency
  {
    var results := arrivals[..k];
    CountsAsSucceeded(arrivals, k);
    hide AnySuccess;
    assert forall j :: 0 <= j < k ==> results[j] == arrivals[j];
  }

  /** There are results that count among the first `k`. */
  ghost predicate SomeCount(arrivals: seq<Probe>, k: nat)
    requires k <= |arrivals|
  {
    exists i :: 0 <= i < k && Counts(arrivals[i])
  }

  /** The `k`-th result is the first that counts, and came in less than 350 ms. */
  ghost predicate QuickAt(arrivals: seq<Probe>, k: nat)
    requires k <= |arrivals|
  {
    k > 0 && Counts(arrivals[k - 1]) && arrivals[k - 1].latency < 350 && !SomeCount(arrivals, k - 1)
  }

  /** What ends a race of `n`: all results, the deadline, enough of them with a success, or a quick first one. */
  ghost predicate Ends(n: nat, arrivals: seq<Probe>, deadline: Option<nat>, k: nat)
    requires k <= |arrivals|
  {
    || k == n
    || deadline == Some(k)
    || (SomeCount(arrivals, k) && (k >= 3 || k >= (n + 1) / 2))
    || QuickAt(arrivals, k)
  }

  lemma OverWrittenOut(n: nat, arrivals: seq<Probe>, deadline: Option<nat>, k: nat)
    requires k <= |arrivals|
    ensures Over(n, arrivals, deadline, k) <==> Ends(n, arrivals, deadline, k)
  {
    var results := arrivals[..k];
    assert forall i :: 0 <= i < k ==> results[i] == arrivals[i] && (Counts(arrivals[i]) <==> Succeeded(results[i]));
    assert AnySuccess(results) <==> SomeCount(arrivals, k);
    if k > 0 {
      var earlier := results[..k - 1];
      assert forall i :: 0 <= i < k - 1 ==> earlier[i] == arrivals[i];
      assert forall i :: 0 <= i < k - 1 ==> (Counts(arrivals[i]) <==> Succeeded(earlier[i]));
      assert AnySuccess(earlier) <==> SomeCount(arrivals, k - 1);
    }
  }

  /** The race receives results until the first point at which one of these ends it. */
  lemma RaceEndsExactlyWhen(
    candidates: seq<string>, arrivals: seq<Probe>, deadline: Option<nat>, received: nat, winner: string)
    requires candidates != [] && |arrivals| == |candidates|
    requires IsRace(candidates, arrivals, deadline, received, winner)
    ensures received <= |candidates| && Ends(|candidates|, arrivals, deadline, received)
    ensures forall k: nat :: k < received ==> !Ends(|candidates|, arrivals, deadline, k)
  {
    hide Over, Ends, IsWinner;
    OverWrittenOut(|candidates|, arrivals, deadline, received);
    forall k: nat | k < received ensures !Ends(|candidates|, arrivals, deadline, k) {
      OverWrittenOut(|candidates|, arrivals, deadline, k);
    }
  }
}
