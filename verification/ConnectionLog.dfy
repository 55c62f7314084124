/**
 The connection log: log lines about sniffed names and routing decisions joined into a bounded
 list of connections that clients poll with a cursor.
 */
module ConnectionLog {
  import opened Wrappers
  import opened Destination

  const CAPACITY: nat := 1000
  const PENDING_LIMIT: nat := 4096

  datatype Entry = Entry(number: nat, time: int, host: string, port: int, network: string, outbound: string)

  /** A log line by what it says, or the switch of the log. */
  datatype Event =
    | Switch(enabled: bool)
    | OtherLine
    | Sniffed(id: string, name: string)
    | Routed(id: string, destination: string, outbound: string, time: int)
    | DefaultRoute(id: string, destination: string, time: int)

  datatype State = State(enabled: bool, count: nat, entries: seq<Entry>, pending: map<string, string>)

  function New(enabled: bool): State { State(enabled, 0, [], map[]) }

  function LastN<T>(s: seq<T>, n: nat): (r: seq<T>) { if |s| <= n then s else s[|s| - n..] }

  // ---------- The log ----------

  function AddTo(l: State, id: string, destination: string, outbound: string, time: int): State {
    var d := SplitDestination(destination);
    var host := if id in l.pending then l.pending[id] else d.host;
    var pending := l.pending - {id};
    if host == "" then l.(pending := pending)
    else
      var entry := Entry(l.count + 1, time, host, d.port, d.network, outbound);
      State(l.enabled, l.count + 1, LastN(l.entries + [entry], CAPACITY), pending)
  }

  function RecordIn(l: State, e: Event): State {
    if e.Switch? then l.(enabled := e.enabled)
    else if !l.enabled then l
    else
      match e
      case Sniffed(id, name) =>
        var pending := if |l.pending| >= PENDING_LIMIT then map[] else l.pending;
        l.(pending := pending[id := name])
      case Routed(id, destination, outbound, time) => AddTo(l, id, destination, outbound, time)
      case DefaultRoute(id, destination, time) => AddTo(l, id, destination, "default", time)
      case _ => l
  }

  function Run(on: bool, events: seq<Event>): State {
    if events == [] then New(on) else RecordIn(Run(on, events[..|events| - 1]), events[|events| - 1])
  }

  /** The entries a client with cursor `after` has not read. */
  function Newer(entries: seq<Entry>, after: int): seq<Entry> {
    if entries == [] then []
    else
      var before, last := entries[..|entries| - 1], entries[|entries| - 1];
      Newer(before, after) + if last.number > after then [last] else []
  }

  class Log {
    var enabled: bool
    var count: nat
    var entries: seq<Entry>
    var pending: map<string, string>

    function View(): State
      reads this
    {
      State(enabled, count, entries, pending)
    }

    constructor (on: bool)
      ensures View() == New(on)
    {
      enabled, count, entries, pending := on, 0, [], map[];
    }

    method SetEnabled(on: bool)
      modifies this
      ensures View() == RecordIn(old(View()), Switch(on))
    {
      enabled := on;
    }

    method Record(line: Event)
      requires !line.Switch?
      modifies this
      ensures View() == RecordIn(old(View()), line)
    {
      if !enabled {
        return;
      }
      match line
      case Sniffed(id, name) =>
        if |pending| >= PENDING_LIMIT {
          pending := map[];
        }
        pending := pending[id := name];
      case Routed(id, destination, outbound, time) =>
        Add(id, destination, outbound, time);
      case DefaultRoute(id, destination, time) =>
        Add(id, destination, "default", time);
      case OtherLine =>
    }

    method Add(id: string, destination: string, outbound: string, time: int)
      modifies this
      ensures View() == AddTo(old(View()), id, destination, outbound, time)
    {
      hide SplitDestination;
      var d := SplitDestination(destination);
      var host := d.host;
      if id in pending {
        host := pending[id];
        pending := pending - {id};
      } else {
        assert pending - {id} == pending;
      }
      if host == "" {
        return;
      }
      count := count + 1;
      entries := entries + [Entry(count, time, host, d.port, d.network, outbound)];
      var over := |entries| - CAPACITY;
      if over > 0 {
        entries := entries[over..];
      }
    }

    /** The entries newer than `after`, and the cursor for the next read. */
    method Snapshot(after: int) returns (cursor: nat, out: seq<Entry>)
      ensures cursor == count && out == Newer(entries, after)
    {
      out := [];
      for i := 0 to |entries|
        invariant out == Newer(entries[..i], after)
      {
        assert entries[..i + 1][..i] == entries[..i];
        if entries[i].number > after {
          out := out + [entries[i]];
        }
      }
      assert entries[..|entries|] == entries;
      cursor := count;
    }
  }

  // ---------- The history the log abbreviates ----------

  function EnabledAfter(on: bool, events: seq<Event>): bool {
    if events == [] then on
    else
      var last := events[|events| - 1];
      if last.Switch? then last.enabled else EnabledAfter(on, events[..|events| - 1])
  }

  /** The lines about routing that came while the log was on. */
  function Seen(on: bool, events: seq<Event>): (seen: seq<Event>)
    ensures forall i :: 0 <= i < |seen| ==> !seen[i].Switch? && !seen[i].OtherLine?
  {
    if events == [] then []
    else
      var before, last := events[..|events| - 1], events[|events| - 1];
      if last.Switch? || last.OtherLine? || !EnabledAfter(on, before) then Seen(on, before)
      else Seen(on, before) + [last]
  }

  predicate About(e: Event, id: string) { !e.Switch? && !e.OtherLine? && e.id == id }

  /** The index of the latest line about `id`. */
  function Latest(seen: seq<Event>, id: string): (r: Option<nat>)
    ensures r.None? ==> forall i :: 0 <= i < |seen| ==> !About(seen[i], id)
    ensures r.Some? ==> r.value < |seen| && About(seen[r.value], id)
    ensures r.Some? ==> forall i :: r.value < i < |seen| ==> !About(seen[i], id)
  {
    if seen == [] then None
    else if About(seen[|seen| - 1], id) then Some(|seen| - 1)
    else Latest(seen[..|seen| - 1], id)
  }

  /** Where the latest overflow reset was: at a sniff that found the limit of unanswered names. */
  function ResetAt(seen: seq<Event>): (r: nat)
    ensures r <= |seen|
    decreases |seen|, 0
  {
    if seen == [] then 0
    else
      var before := seen[..|seen| - 1];
      if seen[|seen| - 1].Sniffed? && |Unanswered(before)| >= 4096 then |seen| - 1 else ResetAt(before)
  }

  /** The name last sniffed for `id`, if no routing line of `id` and no reset came after it. */
  function NameFor(seen: seq<Event>, id: string): Option<string>
    decreases |seen|, 1
  {
    var i := Latest(seen, id);
    if i.Some? && i.value >= ResetAt(seen) && seen[i.value].Sniffed? then Some(seen[i.value].name) else None
  }

  function Unanswered(seen: seq<Event>): set<string>
    decreases |seen|, 2
  {
    set e | e in seen && e.Sniffed? && NameFor(seen, e.id).Some? :: e.id
  }

  /** Every connection of the history, numbered from one, with the name joined to it. */
  function History(seen: seq<Event>): (h: seq<Entry>)
    requires forall i :: 0 <= i < |seen| ==> !seen[i].Switch? && !seen[i].OtherLine?
    ensures forall i :: 0 <= i < |h| ==> h[i].number == i + 1
  {
    if seen == [] then []
    else
      var before, last := seen[..|seen| - 1], seen[|seen| - 1];
      var earlier := History(before);
      if last.Sniffed? then earlier
      else
        var d := SplitDestination(last.destination);
        var name := NameFor(before, last.id);
        var host := if name.Some? then name.value else d.host;
        if host == "" then earlier
        else
          var outbound := if last.Routed? then last.outbound else "default";
          earlier + [Entry(|earlier| + 1, last.time, host, d.port, d.network, outbound)]
  }

  function FullHistory(on: bool, events: seq<Event>): (h: seq<Entry>)
    ensures forall i :: 0 <= i < |h| ==> h[i].number == i + 1
  {
    History(Seen(on, events))
  }

  // ---------- Joining ----------

  lemma {:induction false} LatestAfter(seen: seq<Event>, e: Event, id: string)
    ensures Latest(seen + [e], id) == if About(e, id) then Some(|seen|) else Latest(seen, id)
  {
    assert (seen + [e])[..|seen|] == seen;
  }

  lemma {:induction false} ResetAfter(seen: seq<Event>, e: Event)
    ensures ResetAt(seen + [e]) ==
      if e.Sniffed? && |Unanswered(seen)| >= 4096 then |seen| else ResetAt(seen)
  {
    assert (seen + [e])[..|seen|] == seen;
  }

  lemma {:induction false} NameAfter(seen: seq<Event>, e: Event, id: string)
    requires !e.Switch? && !e.OtherLine?
    ensures NameFor(seen + [e], id) ==
      if e.id == id then (if e.Sniffed? then Some(e.name) else None)
      else if e.Sniffed? && |Unanswered(seen)| >= 4096 then None
      else NameFor(seen, id)
  {
    hide Unanswered;
    LatestAfter(seen, e, id);
    ResetAfter(seen, e);
  }

  /** The pending map holds exactly the unanswered names. */
  ghost predicate Joins(pending: map<string, string>, seen: seq<Event>) {
    && (forall id :: id in pending <==> NameFor(seen, id).Some?)
    && (forall id | id in pending :: pending[id] == NameFor(seen, id).value)
  }

  lemma {:induction false} PendingCount(pending: map<string, string>, seen: seq<Event>)
    requires Joins(pending, seen)
    ensures pending.Keys == Unanswered(seen) && |pending| == |Unanswered(seen)|
  {
    forall id | NameFor(seen, id).Some? ensures id in Unanswered(seen) {
      assert seen[Latest(seen, id).value] in seen;
    }
    assert |pending| == |pending.Keys|;
  }

  lemma {:induction false} SniffKeepsJoin(pending: map<string, string>, seen: seq<Event>, id: string, name: string)
    requires Joins(pending, seen) && |pending| <= 4096
    ensures var after := (if |pending| >= 4096 then map[] else pending)[id := name];
      Joins(after, seen + [Sniffed(id, name)]) && |after| <= 4096
  {
    hide NameFor, Unanswered;
    PendingCount(pending, seen);
    forall other {
      NameAfter(seen, Sniffed(id, name), other);
    }
    var kept := if |pending| >= 4096 then map[] else pending;
    var after := kept[id := name];
    assert after.Keys == kept.Keys + {id};
  }

  lemma {:induction false} RouteKeepsJoin(pending: map<string, string>, seen: seq<Event>, e: Event)
    requires Joins(pending, seen) && (e.Routed? || e.DefaultRoute?)
    ensures Joins(pending - {e.id}, seen + [e]) && |pending - {e.id}| <= |pending|
  {
    hide NameFor, Unanswered;
    var id, longer, after := e.id, seen + [e], pending - {e.id};
    forall other ensures NameFor(longer, other) == if id == other then None else NameFor(seen, other) {
      NameAfter(seen, e, other);
    }
    assert Joins(after, longer);
    FewerKeys(pending, id);
  }

  lemma FewerKeys<A, B>(m: map<A, B>, k: A)
    ensures |m - {k}| <= |m|
  {
    var after := m - {k};
    SetSizes(after.Keys, m.Keys);
    assert |after.Keys| == |after| && |m.Keys| == |m|;
  }

  lemma {:induction false} SetSizes<T>(small: set<T>, large: set<T>)
    requires small <= large
    ensures |small| <= |large|
  {
    if small != {} {
      var x :| x in small;
      SetSizes(small - {x}, large - {x});
    }
  }

  // ---------- The log against the history ----------

  /** The log of `l` is the bounded view of the history of `seen`. */
  ghost predicate Abbreviates(l: State, seen: seq<Event>)
    requires forall i :: 0 <= i < |seen| ==> !seen[i].Switch? && !seen[i].OtherLine?
  {
    && l.count == |History(seen)|
    && l.entries == LastN(History(seen), 1000)
    && Joins(l.pending, seen)
    && |l.pending| <= 4096
  }

  lemma LastNAppend<T>(s: seq<T>, x: T, n: nat)
    requires n > 0
    ensures LastN(LastN(s, n) + [x], n) == LastN(s + [x], n)
  {
  }

  lemma {:induction false} RouteKeepsAbbreviation(l: State, seen: seq<Event>, e: Event, outbound: string)
    requires forall i :: 0 <= i < |seen| ==> !seen[i].Switch? && !seen[i].OtherLine?
    requires Abbreviates(l, seen) && (e.Routed? || e.DefaultRoute?)
    requires outbound == if e.Routed? then e.outbound else "default"
    ensures Abbreviates(AddTo(l, e.id, e.destination, outbound, e.time), seen + [e])
  {
    hide SplitDestination, NameFor, LastN;
    RouteKeepsJoin(l.pending, seen, e);
    assert (seen + [e])[..|seen|] == seen;
    var d := SplitDestination(e.destination);
    var host := if e.id in l.pending then l.pending[e.id] else d.host;
    var entry := Entry(l.count + 1, e.time, host, d.port, d.network, outbound);
    LastNAppend(History(seen), entry, 1000);
  }

  lemma {:induction false} SniffKeepsAbbreviation(l: State, seen: seq<Event>, e: Event)
    requires forall i :: 0 <= i < |seen| ==> !seen[i].Switch? && !seen[i].OtherLine?
    requires Abbreviates(l, seen) && e.Sniffed? && l.enabled
    ensures Abbreviates(RecordIn(l, e), seen + [e])
  {
    hide Joins, LastN;
    SniffKeepsJoin(l.pending, seen, e.id, e.name);
    assert (seen + [e])[..|seen|] == seen;
  }

  /**
   After any lines and switches, the entries kept are the last thousand of the history, the
   sequence number is its length, and the pending names are the unanswered ones, never more than
   the limit.
   */
  lemma {:induction false} LogAbbreviatesHistory(on: bool, events: seq<Event>)
    ensures Abbreviates(Run(on, events), Seen(on, events))
    ensures Run(on, events).enabled == EnabledAfter(on, events)
  {
    hide Abbreviates, AddTo;
    if events == [] {
      EmptyAbbreviates(on);
    } else {
      var before, e := events[..|events| - 1], events[|events| - 1];
      LogAbbreviatesHistory(on, before);
      var l, seen := Run(on, before), Seen(on, before);
      if e.Switch? || e.OtherLine? || !l.enabled {
        SameLogAbbreviates(l, RecordIn(l, e), seen);
      } else if e.Sniffed? {
        SniffKeepsAbbreviation(l, seen, e);
      } else if e.Routed? {
        RouteKeepsAbbreviation(l, seen, e, e.outbound);
      } else {
        RouteKeepsAbbreviation(l, seen, e, "default");
      }
      RecordKeepsSwitch(l, e);
    }
  }

  lemma EmptyAbbreviates(on: bool)
    ensures Abbreviates(New(on), [])
  {
  }

  lemma {:induction false} SameLogAbbreviates(l: State, m: State, seen: seq<Event>)
    requires forall i :: 0 <= i < |seen| ==> !seen[i].Switch? && !seen[i].OtherLine?
    requires Abbreviates(l, seen) && m == l.(enabled := m.enabled)
    ensures Abbreviates(m, seen)
  {
  }

  lemma RecordKeepsSwitch(l: State, e: Event)
    ensures RecordIn(l, e).enabled == if e.Switch? then e.enabled else l.enabled
  {
  }

  function Sniffs(seen: seq<Event>): nat {
    if seen == [] then 0 else Sniffs(seen[..|seen| - 1]) + if seen[|seen| - 1].Sniffed? then 1 else 0
  }

  lemma {:induction false} UnansweredWereSniffed(seen: seq<Event>)
    ensures |Unanswered(seen)| <= Sniffs(seen)
  {
    hide NameFor;
    if seen == [] {
      assert Unanswered(seen) == {};
    } else {
      var before, e := seen[..|seen| - 1], seen[|seen| - 1];
      assert seen == before + [e];
      UnansweredWereSniffed(before);
      if e.Switch? || e.OtherLine? {
        forall id { IrrelevantAfter(before, e, id); }
        assert Unanswered(seen) <= Unanswered(before);
        SetSizes(Unanswered(seen), Unanswered(before));
      } else {
        forall id { NameAfter(before, e, id); }
        var more := if e.Sniffed? then {e.id} else {};
        assert Unanswered(seen) <= Unanswered(before) + more;
        SetSizes(Unanswered(seen), Unanswered(before) + more);
      }
    }
  }

  lemma {:induction false} IrrelevantAfter(seen: seq<Event>, e: Event, id: string)
    requires e.Switch? || e.OtherLine?
    ensures NameFor(seen + [e], id) == NameFor(seen, id)
  {
    hide Unanswered;
    LatestAfter(seen, e, id);
    ResetAfter(seen, e);
  }

  /** Up to the limit of sniffed names nothing is ever reset: each connection has its latest name. */
  lemma {:induction false} FewSniffsNeverReset(seen: seq<Event>)
    requires Sniffs(seen) <= 4096
    ensures ResetAt(seen) == 0
  {
    if seen != [] {
      var before := seen[..|seen| - 1];
      FewSniffsNeverReset(before);
      UnansweredWereSniffed(before);
    }
  }

  /** The name joined to `id` is the one sniffed last, after any reset and with no routing line of `id` since. */
  lemma {:induction false} NameIsTheUnansweredSniff(seen: seq<Event>, id: string, name: string)
    ensures NameFor(seen, id) == Some(name) <==>
      exists i :: ResetAt(seen) <= i < |seen| && seen[i] == Sniffed(id, name) && NoneAbout(seen[i + 1..], id)
  {
    hide ResetAt, Latest;
    var latest := Latest(seen, id);
    if NameFor(seen, id) == Some(name) {
      assert seen[latest.value] == Sniffed(id, name) && NoneAbout(seen[latest.value + 1..], id);
    }
    if i :| ResetAt(seen) <= i < |seen| && seen[i] == Sniffed(id, name) && NoneAbout(seen[i + 1..], id) {
      assert About(seen[i], id);
      assert forall j :: i < j < |seen| ==> seen[j] == seen[i + 1..][j - i - 1];
      assert latest == Some(i);
    }
  }

  predicate NoneAbout(seen: seq<Event>, id: string) { forall i :: 0 <= i < |seen| ==> !About(seen[i], id) }

  // ---------- Polling ----------

  lemma LastNNone<T>(s: seq<T>)
    ensures LastN(s, 0) == []
  {
  }

  lemma LastNTakesLast<T>(s: seq<T>, n: nat)
    requires s != []
    ensures LastN(s, n + 1) == LastN(s[..|s| - 1], n) + [s[|s| - 1]]
  {
  }

  lemma {:induction false} NewerIsATail(entries: seq<Entry>, count: nat, after: int)
    requires |entries| <= count
    requires forall i :: 0 <= i < |entries| ==> entries[i].number == count - |entries| + i + 1
    ensures Newer(entries, after) == if after >= count then [] else LastN(entries, count - after)
    decreases |entries|
  {
    if entries != [] {
      var before := entries[..|entries| - 1];
      hide LastN;
      NewerIsATail(before, count - 1, after);
      if after < count {
        LastNTakesLast(entries, count - 1 - after);
        LastNNone(before);
      }
    }
  }

  datatype Poller = Poller(log: State, cursor: nat, collected: seq<Entry>)

  function RunFrom(l: State, events: seq<Event>): State {
    if events == [] then l else RecordIn(RunFrom(l, events[..|events| - 1]), events[|events| - 1])
  }

  /** A client that polls after every batch of events, with the cursor of its last poll. */
  function Polls(on: bool, batches: seq<seq<Event>>): Poller {
    if batches == [] then Poller(New(on), 0, [])
    else
      var p := Polls(on, batches[..|batches| - 1]);
      var l := RunFrom(p.log, batches[|batches| - 1]);
      Poller(l, l.count, p.collected + Newer(l.entries, p.cursor))
  }

  function Events(batches: seq<seq<Event>>): seq<Event> {
    if batches == [] then [] else Events(batches[..|batches| - 1]) + batches[|batches| - 1]
  }

  function Upto(on: bool, batches: seq<seq<Event>>): (h: seq<Entry>)
    ensures forall i :: 0 <= i < |h| ==> h[i].number == i + 1
  {
    FullHistory(on, Events(batches))
  }

  /** What each batch adds to the history, short of what is evicted before it is polled. */
  function Retained(on: bool, batches: seq<seq<Event>>): seq<Entry> {
    if batches == [] then []
    else
      var before := batches[..|batches| - 1];
      var known := |Upto(on, before)|;
      var h := Upto(on, batches);
      if known > |h| then [] else Retained(on, before) + LastN(h[known..], 1000)
  }

  lemma {:induction false} RunFromRun(on: bool, a: seq<Event>, b: seq<Event>)
    ensures RunFrom(Run(on, a), b) == Run(on, a + b)
    decreases |b|
  {
    if b == [] {
      assert a + b == a;
    } else {
      RunFromRun(on, a, b[..|b| - 1]);
      assert (a + b)[..|a + b| - 1] == a + b[..|b| - 1];
    }
  }

  /** The history only grows: later lines never change what earlier ones recorded. */
  lemma {:induction false} HistoryExtends(on: bool, a: seq<Event>, b: seq<Event>)
    ensures FullHistory(on, a) <= FullHistory(on, a + b)
    decreases |b|
  {
    hide FullHistory;
    if b == [] {
      assert a + b == a;
    } else {
      HistoryExtends(on, a, b[..|b| - 1]);
      assert (a + b)[..|a + b| - 1] == a + b[..|b| - 1];
      OneMoreEvent(on, a + b[..|b| - 1], b[|b| - 1]);
      assert a + b[..|b| - 1] + [b[|b| - 1]] == a + b;
    }
  }

  lemma {:induction false} OneMoreEvent(on: bool, events: seq<Event>, e: Event)
    ensures FullHistory(on, events) <= FullHistory(on, events + [e])
  {
    hide NameFor, SplitDestination, EnabledAfter;
    var seen := Seen(on, events);
    assert (events + [e])[..|events|] == events;
    assert (seen + [e])[..|seen|] == seen;
  }

  lemma {:induction false} OnePoll(l: State, h: seq<Entry>, known: nat)
    requires l.count == |h| && l.entries == LastN(h, 1000) && known <= |h|
    requires forall i :: 0 <= i < |h| ==> h[i].number == i + 1
    ensures Newer(l.entries, known) == LastN(h[known..], 1000)
  {
    hide Newer;
    NewerIsATail(l.entries, l.count, known);
  }

  /** A client that feeds back each cursor collects, batch by batch, exactly what was not yet evicted, in order. */
  lemma {:induction false} PollerCollects(on: bool, batches: seq<seq<Event>>)
    ensures Polls(on, batches).log == Run(on, Events(batches))
    ensures Polls(on, batches).cursor == |Upto(on, batches)|
    ensures Polls(on, batches).collected == Retained(on, batches)
    decreases |batches|
  {
    hide Seen, History, RunFrom, Run, Newer;
    if batches == [] {
      EmptyHistory(on);
    } else {
      var before, batch := batches[..|batches| - 1], batches[|batches| - 1];
      PollerCollects(on, before);
      RunFromRun(on, Events(before), batch);
      HistoryExtends(on, Events(before), batch);
      LogAbbreviatesHistory(on, Events(batches));
      OnePoll(Run(on, Events(batches)), Upto(on, batches), |Upto(on, before)|);
    }
  }

  lemma EmptyHistory(on: bool)
    ensures Run(on, []) == New(on) && FullHistory(on, []) == []
  {
  }

  /** No batch adds more connections than the log keeps. */
  predicate NothingEvicted(on: bool, batches: seq<seq<Event>>) {
    batches == []
    || (NothingEvicted(on, batches[..|batches| - 1])
        && |Upto(on, batches)| - |Upto(on, batches[..|batches| - 1])| <= 1000)
  }

  lemma {:induction false} RetainedIsAllExactlyWhenNothingIsEvicted(on: bool, batches: seq<seq<Event>>)
    ensures |Retained(on, batches)| <= |Upto(on, batches)|
    ensures Retained(on, batches) == Upto(on, batches) <==> NothingEvicted(on, batches)
    ensures |Retained(on, batches)| == |Upto(on, batches)| ==> NothingEvicted(on, batches)
    decreases |batches|
  {
    hide FullHistory;
    if batches == [] {
      EmptyHistory(on);
    } else {
      var before, batch := batches[..|batches| - 1], batches[|batches| - 1];
      RetainedIsAllExactlyWhenNothingIsEvicted(on, before);
      HistoryExtends(on, Events(before), batch);
      var h, known := Upto(on, batches), |Upto(on, before)|;
      assert h == h[..known] + h[known..] && h[..known] == Upto(on, before);
    }
  }

  /** The client gets the complete history exactly when at most a thousand connections came between polls. */
  lemma {:induction false} PollerMissesNothingExactlyWhen(on: bool, batches: seq<seq<Event>>)
    ensures Polls(on, batches).collected == FullHistory(on, Events(batches)) <==> NothingEvicted(on, batches)
  {
    PollerCollects(on, batches);
    RetainedIsAllExactlyWhenNothingIsEvicted(on, batches);
  }

  // ---------- Polling across sessions ----------

  /** A client that comes to a session with the cursor of an earlier read. */
  function PollsFrom(cursor: nat, on: bool, batches: seq<seq<Event>>): Poller {
    if batches == [] then Poller(New(on), cursor, [])
    else
      var p := PollsFrom(cursor, on, batches[..|batches| - 1]);
      var l := RunFrom(p.log, batches[|batches| - 1]);
      Poller(l, l.count, p.collected + Newer(l.entries, p.cursor))
  }

  /** The connections a client with that cursor takes for already read at its first poll. */
  function Skipped(cursor: nat, on: bool, batches: seq<seq<Event>>): nat {
    if batches == [] then 0
    else
      var first := |Upto(on, batches[..1])|;
      if cursor < first then cursor else first
  }

  /** What a client with that cursor collects: of the first batch only what comes after the skipped entries. */
  function RetainedFrom(cursor: nat, on: bool, batches: seq<seq<Event>>): seq<Entry> {
    if batches == [] then []
    else
      var before, h := batches[..|batches| - 1], Upto(on, batches);
      var known := if before == [] then Skipped(cursor, on, batches) else |Upto(on, before)|;
      if known > |h| then [] else RetainedFrom(cursor, on, before) + LastN(h[known..], 1000)
  }

  lemma OnePollFrom(l: State, h: seq<Entry>, cursor: nat)
    requires l.count == |h| && l.entries == LastN(h, 1000)
    requires forall i :: 0 <= i < |h| ==> h[i].number == i + 1
    ensures Newer(l.entries, cursor) == LastN(h[if cursor < |h| then cursor else |h|..], 1000)
  {
    hide Newer;
    NewerIsATail(l.entries, l.count, cursor);
  }

  /** With a cursor of another session, a client misses exactly as many of the first entries as it has read there. */
  lemma {:induction false} PollerCollectsFrom(cursor: nat, on: bool, batches: seq<seq<Event>>)
    ensures var p := PollsFrom(cursor, on, batches);
      && p.log == Run(on, Events(batches))
      && p.cursor == (if batches == [] then cursor else |Upto(on, batches)|)
      && p.collected == RetainedFrom(cursor, on, batches)
    decreases |batches|
  {
    hide Seen, History, RunFrom, Run, Newer;
    if batches == [] {
      EmptyHistory(on);
    } else {
      var before, batch := batches[..|batches| - 1], batches[|batches| - 1];
      PollerCollectsFrom(cursor, on, before);
      RunFromRun(on, Events(before), batch);
      HistoryExtends(on, Events(before), batch);
      LogAbbreviatesHistory(on, Events(batches));
      var l, h := Run(on, Events(batches)), Upto(on, batches);
      OnePollFrom(l, h, if before == [] then cursor else |Upto(on, before)|);
      if before == [] {
        assert batches[..1] == batches;
      }
    }
  }

  lemma {:induction false} RetainedFromIsAllExactlyWhen(cursor: nat, on: bool, batches: seq<seq<Event>>)
    ensures |RetainedFrom(cursor, on, batches)| + Skipped(cursor, on, batches) <= |Upto(on, batches)|
    ensures RetainedFrom(cursor, on, batches) == Upto(on, batches) <==>
      NothingEvicted(on, batches) && Skipped(cursor, on, batches) == 0
    decreases |batches|
  {
    hide FullHistory;
    EmptyHistory(on);
    if batches != [] {
      var before, batch := batches[..|batches| - 1], batches[|batches| - 1];
      RetainedFromIsAllExactlyWhen(cursor, on, before);
      HistoryExtends(on, Events(before), batch);
      var h, known := Upto(on, batches), |Upto(on, before)|;
      assert h == h[..known] + h[known..] && h[..known] == Upto(on, before);
      if before == [] {
        assert batches[..1] == batches;
      } else {
        assert before[..1] == batches[..1];
      }
    }
  }

  /**
   One session as a client sees it: the batches of lines before each of its polls, and whether it
   also polled after the session had stopped, when there is no log and the cursor read is zero.
   */
  datatype Session = Session(on: bool, batches: seq<seq<Event>>, polledAfter: bool)

  /** What a client has read of each session, and its cursor. */
  datatype Client = Client(cursor: nat, read: seq<seq<Entry>>)

  /** A client that goes on with its cursor when a new session, and with it a new log, has started. */
  function ClientOf(sessions: seq<Session>): Client {
    if sessions == [] then Client(0, [])
    else
      var c, last := ClientOf(sessions[..|sessions| - 1]), sessions[|sessions| - 1];
      var p := PollsFrom(c.cursor, last.on, last.batches);
      Client(if last.polledAfter then 0 else p.cursor, c.read + [p.collected])
  }

  /** The cursor a client carries into the next session. */
  function Carried(sessions: seq<Session>): nat {
    if sessions == [] then 0
    else
      var last := sessions[|sessions| - 1];
      if last.polledAfter then 0
      else if last.batches == [] then Carried(sessions[..|sessions| - 1])
      else |Upto(last.on, last.batches)|
  }

  lemma {:induction false} ClientReads(sessions: seq<Session>)
    ensures var c := ClientOf(sessions);
      && c.cursor == Carried(sessions) && |c.read| == |sessions|
      && forall i :: 0 <= i < |sessions| ==>
           c.read[i] == RetainedFrom(Carried(sessions[..i]), sessions[i].on, sessions[i].batches)
  {
    hide RetainedFrom, PollsFrom, Upto;
    if sessions != [] {
      var before, last := sessions[..|sessions| - 1], sessions[|sessions| - 1];
      ClientReads(before);
      PollerCollectsFrom(Carried(before), last.on, last.batches);
      assert forall i :: 0 <= i < |before| ==> sessions[..i] == before[..i];
    }
  }

  /**
   Over any number of sessions, a client gets the complete history of a session exactly when at most
   a thousand connections came between polls and the cursor it carried in made it skip nothing: it
   was zero, or nothing had been recorded at the first poll.
   */
  lemma {:induction false} ClientMissesNothingExactlyWhen(sessions: seq<Session>, i: nat)
    requires i < |sessions|
    ensures |ClientOf(sessions).read| == |sessions|
    ensures var s, cursor := sessions[i], Carried(sessions[..i]);
      ClientOf(sessions).read[i] == FullHistory(s.on, Events(s.batches)) <==>
        NothingEvicted(s.on, s.batches)
        && (cursor == 0 || s.batches == [] || FullHistory(s.on, Events(s.batches[..1])) == [])
  {
    hide RetainedFrom, ClientOf, Carried, FullHistory, NothingEvicted;
    ClientReads(sessions);
    RetainedFromIsAllExactlyWhen(Carried(sessions[..i]), sessions[i].on, sessions[i].batches);
  }
}
