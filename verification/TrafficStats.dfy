/**
 Traffic accounting: byte counters the core keeps adding to, drained destructively into
 cumulative totals by two kinds of reader.
 */
module TrafficStats {
  import opened Wrappers
  import opened TrafficNames
  import opened TrafficReport
  import Text

  // ---------- Snapshots ----------

  datatype Bytes = Bytes(uplink: int, downlink: int)

  datatype Snapshot = Snapshot(inbound: map<string, Bytes>, outbound: map<string, Bytes>)

  const EMPTY := Snapshot(map[], map[])

  function Side(s: Snapshot, kind: Kind): map<string, Bytes> {
    if kind == Inbound then s.inbound else s.outbound
  }

  function BytesOf(s: Snapshot, kind: Kind, tag: string): Bytes {
    if tag in Side(s, kind) then Side(s, kind)[tag] else Bytes(0, 0)
  }

  /** What a snapshot reports for `t`; an absent field reads as zero. */
  function Reported(s: Snapshot, t: Traffic): int {
    var bytes := BytesOf(s, t.kind, t.tag);
    if t.direction == Uplink then bytes.uplink else bytes.downlink
  }

  function Credit(s: Snapshot, t: Traffic, value: int): Snapshot {
    var bytes := BytesOf(s, t.kind, t.tag);
    var credited :=
      if t.direction == Uplink then bytes.(uplink := bytes.uplink + value)
      else bytes.(downlink := bytes.downlink + value);
    var side := Side(s, t.kind)[t.tag := credited];
    if t.kind == Inbound then s.(inbound := side) else s.(outbound := side)
  }

  function Get(m: map<string, int>, name: string): int { if name in m then m[name] else 0 }

  /** The one total behind the field for `t`, if it is positive. */
  function PositiveTotal(totals: map<string, int>, t: Traffic): int {
    if CleanTag(t.tag) && Get(totals, Compose(t)) > 0 then totals[Compose(t)] else 0
  }

  /** Every field equals one positive total or zero, and a tag is listed when one of its fields is positive. */
  ghost predicate Represents(s: Snapshot, totals: map<string, int>) {
    && (forall t: Traffic :: Reported(s, t) == PositiveTotal(totals, t))
    && (forall kind, tag :: tag in Side(s, kind) <==>
          || PositiveTotal(totals, Traffic(kind, tag, Uplink)) > 0
          || PositiveTotal(totals, Traffic(kind, tag, Downlink)) > 0)
  }

  lemma NameBelongsToOneTraffic(name: string, t: Traffic)
    ensures CleanTag(t.tag) && Compose(t) == name <==> Parse(name) == Some(t)
  {
    hide Compose, Parse, CleanTag;
    if CleanTag(t.tag) && Compose(t) == name {
      NameIsReadExactlyWhenItsTagIsClean(t);
    }
    if Parse(name) == Some(t) {
      ParsedNameIsRecomposed(name);
    }
  }

  /** Adding the total of one more name keeps the snapshot exact. */
  lemma CreditKeepsRepresentation(s: Snapshot, totals: map<string, int>, name: string, value: int)
    requires Represents(s, totals) && name !in totals
    ensures Represents(
      if value > 0 && Parse(name).Some? then Credit(s, Parse(name).value, value) else s, totals[name := value])
  {
    hide Compose, Parse, CleanTag;
    forall t: Traffic
      ensures PositiveTotal(totals[name := value], t)
           == if value > 0 && Parse(name) == Some(t) then value else PositiveTotal(totals, t)
      ensures Parse(name) == Some(t) ==> PositiveTotal(totals, t) == 0
    {
      NameBelongsToOneTraffic(name, t);
    }
    if value > 0 && Parse(name).Some? {
      var u := Parse(name).value;
      var after := Credit(s, u, value);
      CreditAddsToOneField(s, u, value);
      hide Credit, Side, Reported;
      forall t: Traffic ensures Reported(after, t) == PositiveTotal(totals[name := value], t) {
      }
      forall kind, tag
        ensures tag in Side(after, kind) <==>
          PositiveTotal(totals[name := value], Traffic(kind, tag, Uplink)) > 0
          || PositiveTotal(totals[name := value], Traffic(kind, tag, Downlink)) > 0
      {
        assert u == Traffic(u.kind, u.tag, u.direction);
      }
    }
  }

  lemma CreditAddsToOneField(s: Snapshot, t: Traffic, value: int)
    ensures forall u: Traffic ::
      Reported(Credit(s, t, value), u) == Reported(s, u) + if u == t then value else 0
    ensures forall kind, tag ::
      tag in Side(Credit(s, t, value), kind) <==> tag in Side(s, kind) || (kind == t.kind && tag == t.tag)
  {
  }

  /** The fields of one tag on one side, given the two totals of that tag. */
  ghost predicate FieldsAre(side: map<string, Bytes>, tag: string, up: int, down: int) {
    && (tag in side <==> CleanTag(tag) && (up > 0 || down > 0))
    && (tag in side ==>
          && side[tag].uplink == (if up > 0 then up else 0)
          && side[tag].downlink == (if down > 0 then down else 0))
  }

  /** Which total each field of a snapshot is, with the names written out. */
  lemma FieldsWrittenOut(s: Snapshot, totals: map<string, int>, tag: string)
    requires Represents(s, totals)
    ensures FieldsAre(
      s.inbound, tag,
      Get(totals, "inbound>>>" + tag + ">>>traffic>>>uplink"),
      Get(totals, "inbound>>>" + tag + ">>>traffic>>>downlink"))
    ensures FieldsAre(
      s.outbound, tag,
      Get(totals, "outbound>>>" + tag + ">>>traffic>>>uplink"),
      Get(totals, "outbound>>>" + tag + ">>>traffic>>>downlink"))
  {
    hide Compose, CleanTag;
    NamesWrittenOut(tag);
    FieldsOfSide(s, totals, Inbound, tag);
    FieldsOfSide(s, totals, Outbound, tag);
  }

  lemma FieldsOfSide(s: Snapshot, totals: map<string, int>, kind: Kind, tag: string)
    requires Represents(s, totals)
    ensures FieldsAre(
      if kind == Inbound then s.inbound else s.outbound, tag,
      Get(totals, Compose(Traffic(kind, tag, Uplink))), Get(totals, Compose(Traffic(kind, tag, Downlink))))
  {
    hide Compose, CleanTag;
    var up, down := Traffic(kind, tag, Uplink), Traffic(kind, tag, Downlink);
    assert Reported(s, up) == PositiveTotal(totals, up) && Reported(s, down) == PositiveTotal(totals, down);
    assert tag in Side(s, kind) <==> PositiveTotal(totals, up) > 0 || PositiveTotal(totals, down) > 0;
  }

  /** The snapshot of the totals, whatever the order in which the map is walked. */
  method SnapshotFromTotals(totals: map<string, int>) returns (s: Snapshot)
    ensures Represents(s, totals)
  {
    s := EMPTY;
    var remaining := totals.Keys;
    ghost var done: map<string, int> := map[];
    while remaining != {}
      invariant remaining <= totals.Keys
      invariant done.Keys == totals.Keys - remaining && forall n | n in done :: done[n] == totals[n]
      invariant Represents(s, done)
    {
      hide Represents, Credit;
      var name :| name in remaining;
      var value := totals[name];
      CreditKeepsRepresentation(s, done, name, value);
      if value > 0 {
        var t := Parse(name);
        if t.Some? {
          s := Credit(s, t.value, value);
        }
      }
      done := done[name := value];
      remaining := remaining - {name};
    }
    assert done == totals;
  }

  /** Totals have one snapshot: its fields do not depend on the order of the walk. */
  lemma {:induction false} SnapshotIsDetermined(a: Snapshot, b: Snapshot, totals: map<string, int>)
    requires Represents(a, totals) && Represents(b, totals)
    ensures a == b
  {
    hide PositiveTotal;
    forall kind ensures Side(a, kind) == Side(b, kind) {
      forall tag | tag in Side(a, kind) ensures Side(a, kind)[tag] == Side(b, kind)[tag] {
        assert Reported(a, Traffic(kind, tag, Uplink)) == Reported(b, Traffic(kind, tag, Uplink));
        assert Reported(a, Traffic(kind, tag, Downlink)) == Reported(b, Traffic(kind, tag, Downlink));
      }
      assert Side(a, kind).Keys == Side(b, kind).Keys by {
        forall tag ensures tag in Side(a, kind) <==> tag in Side(b, kind) {}
      }
    }
    assert a.inbound == Side(a, Inbound) && a.outbound == Side(a, Outbound);
    assert b.inbound == Side(b, Inbound) && b.outbound == Side(b, Outbound);
  }

  // ---------- Counters and totals ----------

  const RANGE: int := 0x8000_0000_0000_0000

  /** The int64 a sum is stored as. */
  function Wrap64(x: int): (r: int)
    ensures -RANGE <= r < RANGE
    ensures -RANGE <= x < RANGE ==> r == x
    ensures x >= RANGE ==> r <= x - 2 * RANGE
  {
    (x + RANGE) % (2 * RANGE) - RANGE
  }

  /** A session's counters in the core, and the totals drained from them so far. */
  datatype Account = Account(attached: bool, counters: map<string, int>, totals: map<string, int>)

  const IDLE := Account(false, map[], map[])

  /**
   One atomic step. A query is a number of visits, one per counter, with additions in between
   from any connection.
   */
  datatype Op =
    | Begin(attached: bool)
    | End
    | Create(name: string)
    | Add(name: string, bytes: nat)
    | Visit(name: string)

  /** Draining one counter: it is zeroed, and what it held goes to the total of its name. */
  function VisitCounter(a: Account, name: string): Account {
    if !a.attached || name !in a.counters || Parse(name).None? then a
    else
      var value := a.counters[name];
      var zeroed := a.(counters := a.counters[name := 0]);
      if value > 0 then zeroed.(totals := a.totals[name := Wrap64(Get(a.totals, name) + value)]) else zeroed
  }

  function Step(a: Account, op: Op): Account {
    match op
    case Begin(attached) => Account(attached, map[], map[])
    case End => IDLE
    case Create(name) => if a.attached && name !in a.counters then a.(counters := a.counters[name := 0]) else a
    case Add(name, bytes) =>
      if name in a.counters then a.(counters := a.counters[name := Wrap64(a.counters[name] + bytes)]) else a
    case Visit(name) => VisitCounter(a, name)
  }

  function Run(ops: seq<Op>): Account {
    if ops == [] then IDLE else Step(Run(ops[..|ops| - 1]), ops[|ops| - 1])
  }

  /** All bytes added to the counter while it was live in the current session. */
  function Added(ops: seq<Op>, name: string): nat {
    if ops == [] then 0
    else
      var before := ops[..|ops| - 1];
      match ops[|ops| - 1]
      case Begin(_) => 0
      case End => 0
      case Add(n, bytes) => Added(before, name) + if n == name && name in Run(before).counters then bytes else 0
      case _ => Added(before, name)
  }

  ghost predicate Conserved(ops: seq<Op>, name: string) {
    Get(Run(ops).totals, name) + Get(Run(ops).counters, name) == Added(ops, name)
  }

  /** Nothing is lost and nothing counted twice while the bytes of a counter fit into an int64. */
  lemma {:induction false} Conservation(ops: seq<Op>, name: string)
    requires Added(ops, name) < RANGE
    ensures Conserved(ops, name)
    ensures Get(Run(ops).totals, name) >= 0 && Get(Run(ops).counters, name) >= 0
    ensures !Run(ops).attached ==> Run(ops).counters == map[]
    decreases |ops|
  {
    hide Parse;
    if ops != [] {
      var before, op := ops[..|ops| - 1], ops[|ops| - 1];
      if !op.Begin? && !op.End? {
        Conservation(before, name);
      }
    }
  }

  /** No addition takes the counter beyond an int64 in this session, and no visit the total. */
  predicate NeverOverflows(ops: seq<Op>, name: string) {
    ops == []
    || (var before, op := ops[..|ops| - 1], ops[|ops| - 1];
        var a := Run(before);
        if op.Begin? || op.End? then true
        else if op.Add? && op.name == name && name in a.counters then
          NeverOverflows(before, name) && a.counters[name] + op.bytes < RANGE
        else if op.Visit? && op.name == name && VisitCounter(a, name) != a then
          NeverOverflows(before, name) && Get(a.totals, name) + Get(a.counters, name) < RANGE
        else NeverOverflows(before, name))
  }

  /**
   The books of a counter after `added` bytes: without overflow nothing is lost; an overflow loses so
   much that even a counter gone negative, drained away, cannot make up for it.
   */
  ghost predicate Books(a: Account, name: string, added: nat, fine: bool) {
    var total, counter := Get(a.totals, name), Get(a.counters, name);
    var lost := added - total - counter;
    && -RANGE <= counter < RANGE && -RANGE <= total < RANGE
    && (if fine then lost == 0 && counter >= 0 && total >= 0 else lost >= RANGE && lost + counter >= RANGE)
  }

  lemma AddKeepsBooks(a: Account, name: string, added: nat, fine: bool, bytes: nat)
    requires Books(a, name, added, fine) && name in a.counters
    ensures Books(Step(a, Add(name, bytes)), name, added + bytes, fine && a.counters[name] + bytes < RANGE)
  {
    hide Wrap64, VisitCounter;
  }

  lemma VisitKeepsBooks(a: Account, name: string, added: nat, fine: bool)
    requires Books(a, name, added, fine) && VisitCounter(a, name) != a
    ensures Books(VisitCounter(a, name), name, added, fine && Get(a.totals, name) + Get(a.counters, name) < RANGE)
  {
    hide Wrap64, Parse;
  }

  lemma {:induction false} BooksAreKept(ops: seq<Op>, name: string)
    ensures Books(Run(ops), name, Added(ops, name), NeverOverflows(ops, name))
    decreases |ops|
  {
    hide Wrap64, VisitCounter;
    if ops != [] {
      var before, op := ops[..|ops| - 1], ops[|ops| - 1];
      BooksAreKept(before, name);
      var a := Run(before);
      if op.Add? && op.name == name && name in a.counters {
        AddKeepsBooks(a, name, Added(before, name), NeverOverflows(before, name), op.bytes);
      } else if op.Visit? && op.name == name && VisitCounter(a, name) != a {
        VisitKeepsBooks(a, name, Added(before, name), NeverOverflows(before, name));
      } else if op.Visit? {
        OtherVisitKeepsBooks(a, op.name, name);
      }
    }
  }

  lemma OtherVisitKeepsBooks(a: Account, visited: string, name: string)
    requires visited != name || VisitCounter(a, visited) == a
    ensures Get(VisitCounter(a, visited).totals, name) == Get(a.totals, name)
    ensures Get(VisitCounter(a, visited).counters, name) == Get(a.counters, name)
  {
    hide Parse, Wrap64;
  }

  /** Over any run, a counter's bytes are conserved exactly when neither it nor its total ever overflows. */
  lemma {:induction false} ConservedExactlyWhenNothingOverflows(ops: seq<Op>, name: string)
    ensures Conserved(ops, name) <==> NeverOverflows(ops, name)
  {
    hide Run, Added, NeverOverflows;
    BooksAreKept(ops, name);
  }

  function Trickle(name: string, amount: nat): (ops: seq<Op>) {
    if amount == 0 then [Begin(true), Create(name)] else Trickle(name, amount - 1) + [Add(name, 1)]
  }

  lemma {:induction false} TrickleAdds(name: string, amount: nat)
    ensures Added(Trickle(name, amount), name) == amount
    ensures name in Run(Trickle(name, amount)).counters && Run(Trickle(name, amount)).totals == map[]
    ensures Run(Trickle(name, amount)).counters[name] < RANGE
  {
    var ops := Trickle(name, amount);
    if amount == 0 {
      var begun := ops[..1];
      assert begun == [Begin(true)] && begun[..0] == [];
      assert Run(begun) == Account(true, map[], map[]) && Added(begun, name) == 0;
    } else {
      TrickleAdds(name, amount - 1);
      assert ops[..|ops| - 1] == Trickle(name, amount - 1);
    }
  }

  /** An amount is conserved by every run that adds it exactly when it fits into an int64. */
  lemma ConservedExactlyWithinTheRange(name: string, amount: nat)
    ensures (forall ops | Added(ops, name) == amount :: Conserved(ops, name)) <==> amount < RANGE
  {
    hide Added, Run;
    if amount < RANGE {
      forall ops | Added(ops, name) == amount ensures Conserved(ops, name) {
        Conservation(ops, name);
      }
    } else {
      TrickleAdds(name, amount);
      assert !Conserved(Trickle(name, amount), name);
    }
  }

  // ---------- Successive reads ----------

  /** The steps stay within one session. */
  ghost predicate WithinSession(ops: seq<Op>) {
    forall i :: 0 <= i < |ops| ==> !ops[i].Begin? && !ops[i].End?
  }

  lemma ExtendByOne(ops: seq<Op>, more: seq<Op>, name: string)
    requires more != [] && WithinSession(more)
    ensures Run(ops + more) == Step(Run(ops + more[..|more| - 1]), more[|more| - 1])
    ensures Added(ops + more[..|more| - 1], name) <= Added(ops + more, name)
    ensures NeverOverflows(ops + more, name) ==> NeverOverflows(ops + more[..|more| - 1], name)
  {
    hide Step, VisitCounter;
    var whole := ops + more;
    assert whole[..|whole| - 1] == ops + more[..|more| - 1];
  }

  /** While nothing overflows, what was added is what the counter and its total hold. */
  lemma NothingLost(ops: seq<Op>, name: string)
    requires NeverOverflows(ops, name)
    ensures Get(Run(ops).totals, name) + Get(Run(ops).counters, name) == Added(ops, name)
    ensures 0 <= Get(Run(ops).totals, name) < RANGE && 0 <= Get(Run(ops).counters, name) < RANGE
  {
    hide Run, Added, NeverOverflows;
    BooksAreKept(ops, name);
  }

  /** A step within a session that takes no total out of range lowers none. */
  lemma StepKeepsTotal(a: Account, op: Op, name: string)
    requires !op.Begin? && !op.End? && 0 <= Get(a.totals, name) < RANGE && 0 <= Get(a.counters, name) < RANGE
    requires Get(Step(a, op).totals, name) >= 0
    ensures Get(a.totals, name) <= Get(Step(a, op).totals, name)
  {
    hide Parse;
  }

  /** Totals only grow within a session in which the name does not overflow, whichever readers drain the counters. */
  lemma {:induction false} TotalsNeverFall(ops: seq<Op>, more: seq<Op>, name: string)
    requires WithinSession(more) && NeverOverflows(ops + more, name)
    ensures 0 <= Get(Run(ops).totals, name) <= Get(Run(ops + more).totals, name)
    ensures Added(ops, name) <= Added(ops + more, name)
    ensures NeverOverflows(ops, name)
    decreases |more|
  {
    hide Parse, Added, Run, NeverOverflows, Step;
    if more == [] {
      assert ops + more == ops;
      NothingLost(ops, name);
    } else {
      var before := more[..|more| - 1];
      ExtendByOne(ops, more, name);
      TotalsNeverFall(ops, before, name);
      NothingLost(ops + before, name);
      NothingLost(ops + more, name);
      StepKeepsTotal(Run(ops + before), more[|more| - 1], name);
    }
  }

  /** A visit of an accepted counter leaves nothing undrained. */
  lemma VisitEmpties(a: Account, name: string)
    requires Parse(name).Some? && (!a.attached ==> a.counters == map[])
    ensures Get(VisitCounter(a, name).counters, name) == 0
  {
    hide Parse, Wrap64;
  }

  lemma {:induction false} UnattachedIsEmpty(ops: seq<Op>)
    ensures !Run(ops).attached ==> Run(ops).counters == map[]
  {
    hide Parse, Wrap64;
    if ops != [] {
      UnattachedIsEmpty(ops[..|ops| - 1]);
    }
  }

  /**
   A counter that was visited has handed over every byte added before the query began, and no byte
   twice, in a session in which it does not overflow.
   */
  lemma {:induction false} QueryCountsEarlierBytes(ops: seq<Op>, query: seq<Op>, name: string)
    requires WithinSession(query) && Visit(name) in query && Parse(name).Some?
    requires NeverOverflows(ops + query, name)
    ensures Added(ops, name) <= Get(Run(ops + query).totals, name) <= Added(ops + query, name)
    decreases |query|
  {
    hide Parse, Added, Run, NeverOverflows, VisitCounter;
    var before, last := query[..|query| - 1], query[|query| - 1];
    assert query == before + [last];
    ExtendByOne(ops, query, name);
    NothingLost(ops + query, name);
    TotalsNeverFall(ops, before, name);
    if last == Visit(name) {
      UnattachedIsEmpty(ops + before);
      VisitEmpties(Run(ops + before), name);
    } else {
      QueryCountsEarlierBytes(ops, before, name);
      assert (ops + query) == (ops + before) + [last];
      TotalsNeverFall(ops + before, [last], name);
    }
  }

  /**
   In later snapshots of a session no field whose counter does not overflow is below what it was, and
   legacy reads in between take nothing away.
   */
  lemma {:induction false} SnapshotsGrow(
    ops: seq<Op>, more: seq<Op>, earlier: Snapshot, later: Snapshot, t: Traffic)
    requires WithinSession(more) && NeverOverflows(ops + more, Compose(t))
    requires Represents(earlier, Run(ops).totals) && Represents(later, Run(ops + more).totals)
    ensures 0 <= Reported(earlier, t) <= Reported(later, t)
  {
    hide Parse, Added, Run, Compose, CleanTag, Reported, NeverOverflows;
    TotalsNeverFall(ops, more, Compose(t));
  }

  // ---------- The two readers ----------

  /** The positive counters a drain takes over. */
  function Moved(counters: map<string, int>): map<string, int> {
    map n | n in counters && Parse(n).Some? && counters[n] > 0 :: counters[n]
  }

  /** What a drain leaves when nothing is added meanwhile. */
  function Drained(a: Account): Account {
    var moved := Moved(a.counters);
    a.(
      counters := map n | n in a.counters :: if Parse(n).Some? then 0 else a.counters[n],
      totals := map n | n in a.totals.Keys + moved.Keys ::
        if n in moved then Wrap64(Get(a.totals, n) + moved[n]) else a.totals[n])
  }

  /** `now` is `a` with the counters named in `done` drained. */
  ghost predicate DrainedBut(a: Account, now: Account, done: set<string>) {
    && now.attached == a.attached && now.counters.Keys == a.counters.Keys
    && (forall n | n in a.counters ::
          now.counters[n] == if n in done && Parse(n).Some? then 0 else a.counters[n])
    && (forall n :: n in now.totals <==> n in a.totals || (n in Moved(a.counters) && n in done))
    && (forall n | n in now.totals ::
          now.totals[n] == (
            if n in Moved(a.counters) && n in done then Wrap64(Get(a.totals, n) + a.counters[n])
            else a.totals[n]))
  }

  /** What a visit does to a counter that has not been visited yet. */
  lemma FirstVisit(a: Account, now: Account, done: set<string>, name: string)
    requires DrainedBut(a, now, done) && name !in done && name in a.counters && a.attached
    ensures var after := VisitCounter(now, name);
      && after.attached && after.counters.Keys == now.counters.Keys
      && (forall n | n in now.counters ::
            after.counters[n] == if n == name && Parse(n).Some? then 0 else now.counters[n])
      && after.totals == (
           if name in Moved(a.counters) then now.totals[name := Wrap64(Get(a.totals, name) + a.counters[name])]
           else now.totals)
  {
    hide Parse, Wrap64;
    assert now.counters[name] == a.counters[name];
    assert name in Moved(a.counters) ==> Get(now.totals, name) == Get(a.totals, name);
  }

  lemma {:induction false} VisitKeepsDrained(a: Account, now: Account, done: set<string>, name: string)
    requires DrainedBut(a, now, done) && name !in done && name in a.counters && a.attached
    ensures DrainedBut(a, VisitCounter(now, name), done + {name})
    ensures VisitCounter(now, name).counters.Keys == a.counters.Keys && VisitCounter(now, name).attached
  {
    hide Parse, Wrap64, VisitCounter, Moved;
    FirstVisit(a, now, done, name);
  }

  lemma NothingVisited(a: Account)
    ensures DrainedBut(a, a, {}) && DeltasOf(a, map[], {})
  {
  }

  /** `deltas` holds what the visits to `done` moved. */
  ghost predicate DeltasOf(a: Account, deltas: map<string, int>, done: set<string>) {
    && (forall n :: n in deltas <==> n in Moved(a.counters) && n in done)
    && (forall n | n in deltas :: deltas[n] == a.counters[n])
  }

  lemma {:induction false} VisitKeepsDeltas(
    a: Account, now: Account, deltas: map<string, int>, done: set<string>, name: string)
    requires DrainedBut(a, now, done) && DeltasOf(a, deltas, done) && name !in done && name in a.counters
    ensures DeltasOf(
      a, if name in Moved(now.counters) then deltas[name := now.counters[name]] else deltas, done + {name})
  {
    hide Parse, Wrap64;
    assert name in Moved(now.counters) <==> name in Moved(a.counters);
  }

  lemma {:induction false} AllVisitedIsDrained(a: Account, now: Account)
    requires DrainedBut(a, now, a.counters.Keys)
    ensures now == Drained(a)
    ensures forall deltas :: DeltasOf(a, deltas, a.counters.Keys) ==> deltas == Moved(a.counters)
  {
    hide Parse, Wrap64;
    var d := Drained(a);
    assert now.counters == d.counters;
    assert now.totals.Keys == d.totals.Keys;
    assert now.totals == d.totals;
  }

  // ---------- The legacy text ----------

  function RowsOf(tags: seq<string>, outbound: map<string, Bytes>): (rows: seq<Row>)
    requires forall t :: t in tags ==> t in outbound
    ensures |rows| == |tags|
  {
    seq(|tags|, i requires 0 <= i < |tags| => Row(tags[i], outbound[tags[i]].uplink, outbound[tags[i]].downlink))
  }

  ghost predicate IsText(report: string, outbound: map<string, Bytes>) {
    exists tags :: Lists(tags, outbound.Keys) && report == Print(RowsOf(tags, outbound))
  }

  /** `report` is the text of the outbound part of the snapshot of `totals`. */
  ghost predicate Reports(report: string, totals: map<string, int>) {
    exists s :: Represents(s, totals) && IsText(report, s.outbound)
  }

  /** Totals have one legacy text, whatever the order in which maps are walked. */
  lemma ReportIsDetermined(a: string, b: string, totals: map<string, int>)
    requires Reports(a, totals) && Reports(b, totals)
    ensures a == b
  {
    hide Represents, Print, Lists;
    var s :| Represents(s, totals) && IsText(a, s.outbound);
    var t :| Represents(t, totals) && IsText(b, t.outbound);
    SnapshotIsDetermined(s, t, totals);
    TextIsDetermined(a, b, s.outbound);
  }

  lemma TextIsDetermined(a: string, b: string, outbound: map<string, Bytes>)
    requires IsText(a, outbound) && IsText(b, outbound)
    ensures a == b
  {
    hide Print, Ascending;
    var tags :| Lists(tags, outbound.Keys) && a == Print(RowsOf(tags, outbound));
    var others :| Lists(others, outbound.Keys) && b == Print(RowsOf(others, outbound));
    ListingIsDetermined(tags, others, outbound.Keys);
  }

  /** One part of the text, if its number is positive. */
  ghost function Written(tag: string, direction: string, n: int): string {
    if n > 0 then tag + direction + Text.FormatNat(n) + ";" else ""
  }

  /** The text for the tags, from the counters by their names. */
  ghost function LegacyText(tags: seq<string>, counters: map<string, int>): string {
    if tags == [] then ""
    else
      var t := tags[|tags| - 1];
      LegacyText(tags[..|tags| - 1], counters)
      + Written(t, ",uplink,", Get(counters, "outbound>>>" + t + ">>>traffic>>>uplink"))
      + Written(t, ",downlink,", Get(counters, "outbound>>>" + t + ">>>traffic>>>downlink"))
  }

  /** The tag has an outbound counter that is accepted and not zero. */
  ghost predicate HasTraffic(t: string, counters: map<string, int>) {
    CleanTag(t) && (Get(counters, "outbound>>>" + t + ">>>traffic>>>uplink") > 0
                    || Get(counters, "outbound>>>" + t + ">>>traffic>>>downlink") > 0)
  }

  /** The text of all tags that have traffic, in ascending byte order. */
  ghost predicate IsLegacyText(report: string, counters: map<string, int>) {
    exists tags :: IsTextOf(report, tags, counters)
  }

  ghost predicate IsTextOf(report: string, tags: seq<string>, counters: map<string, int>) {
    && (forall i, j :: 0 <= i < j < |tags| ==> InByteOrder(tags[i], tags[j]))
    && (forall t :: t in tags <==> HasTraffic(t, counters))
    && report == LegacyText(tags, counters)
  }

  lemma WrittenPart(tag: string, up: int, down: int)
    ensures Part(tag, "uplink", up) == Written(tag, ",uplink,", up)
    ensures Part(tag, "downlink", down) == Written(tag, ",downlink,", down)
  {
    assert "," + "uplink" + "," == ",uplink," && "," + "downlink" + "," == ",downlink,";
    if up > 0 {
      assert tag + "," + "uplink" + "," == tag + ("," + "uplink" + ",");
    }
    if down > 0 {
      assert tag + "," + "downlink" + "," == tag + ("," + "downlink" + ",");
    }
  }

  lemma {:induction false} TextWrittenOut(tags: seq<string>, s: Snapshot, totals: map<string, int>)
    requires Represents(s, totals) && forall t :: t in tags ==> t in s.outbound
    ensures Print(RowsOf(tags, s.outbound)) == LegacyText(tags, totals)
  {
    hide Represents, Part, Written, CleanTag;
    if tags != [] {
      var n := |tags| - 1;
      var t, front, rows := tags[n], tags[..n], RowsOf(tags, s.outbound);
      assert t in tags;
      TextWrittenOut(front, s, totals);
      assert rows[..n] == RowsOf(front, s.outbound);
      FieldsWrittenOut(s, totals, t);
      var up := Get(totals, "outbound>>>" + t + ">>>traffic>>>uplink");
      var down := Get(totals, "outbound>>>" + t + ">>>traffic>>>downlink");
      WrittenPart(t, rows[n].uplink, rows[n].downlink);
      NotWritten(t, ",uplink,", up, rows[n].uplink);
      NotWritten(t, ",downlink,", down, rows[n].downlink);
    }
  }

  lemma NotWritten(tag: string, direction: string, n: int, shown: int)
    requires shown == if n > 0 then n else 0
    ensures Written(tag, direction, n) == Written(tag, direction, shown)
  {
  }

  /** The legacy text is that of the named counters, written out. */
  lemma ReportWrittenOut(report: string, totals: map<string, int>)
    requires Reports(report, totals)
    ensures IsLegacyText(report, totals)
  {
    hide Represents, Print, LegacyText, Before;
    var s :| Represents(s, totals) && IsText(report, s.outbound);
    var tags :| Lists(tags, s.outbound.Keys) && report == Print(RowsOf(tags, s.outbound));
    TextWrittenOut(tags, s, totals);
    forall t ensures t in tags <==> HasTraffic(t, totals) {
      FieldsWrittenOut(s, totals, t);
    }
    forall i, j | 0 <= i < j < |tags| ensures InByteOrder(tags[i], tags[j]) {
      BeforeExactlyWhen(tags[i], tags[j]);
    }
    assert IsTextOf(report, tags, totals);
  }

  /** What a drain moves of the outbound counters of a tag is what they hold, if it is positive. */
  lemma MovedOutbound(counters: map<string, int>, t: string)
    requires CleanTag(t)
    ensures var moved := Moved(counters);
      && Get(moved, "outbound>>>" + t + ">>>traffic>>>uplink")
           == Positive(Get(counters, "outbound>>>" + t + ">>>traffic>>>uplink"))
      && Get(moved, "outbound>>>" + t + ">>>traffic>>>downlink")
           == Positive(Get(counters, "outbound>>>" + t + ">>>traffic>>>downlink"))
  {
    hide Compose, Parse, CleanTag;
    NamesWrittenOut(t);
    NameIsReadExactlyWhenItsTagIsClean(Traffic(Outbound, t, Uplink));
    NameIsReadExactlyWhenItsTagIsClean(Traffic(Outbound, t, Downlink));
  }

  function Positive(n: int): int { if n > 0 then n else 0 }

  lemma {:induction false} SameLegacyText(tags: seq<string>, counters: map<string, int>)
    requires forall t :: t in tags ==> CleanTag(t)
    ensures LegacyText(tags, Moved(counters)) == LegacyText(tags, counters)
  {
    hide CleanTag, Moved, Written;
    if tags != [] {
      var t := tags[|tags| - 1];
      assert t in tags;
      SameLegacyText(tags[..|tags| - 1], counters);
      MovedOutbound(counters, t);
      NotWritten(t, ",uplink,", Get(counters, "outbound>>>" + t + ">>>traffic>>>uplink"),
                 Get(Moved(counters), "outbound>>>" + t + ">>>traffic>>>uplink"));
      NotWritten(t, ",downlink,", Get(counters, "outbound>>>" + t + ">>>traffic>>>downlink"),
                 Get(Moved(counters), "outbound>>>" + t + ">>>traffic>>>downlink"));
    }
  }

  /** The legacy text of what a drain moves is the text of the counters it finds. */
  lemma MovedText(report: string, counters: map<string, int>)
    requires IsLegacyText(report, Moved(counters))
    ensures IsLegacyText(report, counters)
  {
    hide CleanTag, Moved, LegacyText, InByteOrder;
    var tags :| IsTextOf(report, tags, Moved(counters));
    SameLegacyText(tags, counters);
    forall t ensures HasTraffic(t, Moved(counters)) <==> HasTraffic(t, counters) {
      if CleanTag(t) {
        MovedOutbound(counters, t);
      }
    }
    assert IsTextOf(report, tags, counters);
  }

  method PrintOutbound(outbound: map<string, Bytes>) returns (report: string)
    ensures IsText(report, outbound)
  {
    var tags := SortTags(outbound.Keys);
    ghost var rows := RowsOf(tags, outbound);
    report := "";
    for i := 0 to |tags|
      invariant report == Print(rows[..i])
    {
      var bytes := outbound[tags[i]];
      PrintOneMore(rows, i);
      report := report + Part(tags[i], "uplink", bytes.uplink) + Part(tags[i], "downlink", bytes.downlink);
    }
    assert rows[..|tags|] == rows;
  }

  /** The controller's account of its running session. */
  class TrafficAccount {
    var attached: bool
    var counters: map<string, int>
    var totals: map<string, int>

    function View(): Account
      reads this
    {
      Account(attached, counters, totals)
    }

    constructor ()
      ensures View() == IDLE
    {
      attached, counters, totals := false, map[], map[];
    }

    /** A session starts from zero, with the core's statistics if it has any. */
    method BeginSession(statistics: bool)
      modifies this
      ensures View() == Step(old(View()), Begin(statistics))
    {
      attached, counters, totals := statistics, map[], map[];
    }

    method EndSession()
      modifies this
      ensures View() == Step(old(View()), End)
    {
      attached, counters, totals := false, map[], map[];
    }

    /** The visitor of one counter; returns what it moved, which is positive or nothing. */
    method VisitOne(name: string) returns (moved: Option<int>)
      requires attached && name in counters
      modifies this
      ensures View() == VisitCounter(old(View()), name)
      ensures moved == if name in Moved(old(counters)) then Some(old(counters[name])) else None
    {
      hide Parse;
      moved := None;
      if Parse(name).Some? {
        var value := counters[name];
        counters := counters[name := 0];
        if value > 0 {
          totals := totals[name := Wrap64(Get(totals, name) + value)];
          moved := Some(value);
        }
      }
    }

    /** Moves every positive traffic counter into the totals, in any order, and returns what was moved. */
    method Drain() returns (deltas: map<string, int>)
      requires !attached ==> counters == map[]
      modifies this
      ensures View() == Drained(old(View()))
      ensures deltas == Moved(old(counters))
    {
      hide Parse, DrainedBut, DeltasOf, Moved, Drained, VisitCounter;
      deltas := map[];
      ghost var start := View();
      NothingVisited(start);
      if attached {
        var remaining := counters.Keys;
        assert start.counters.Keys - remaining == {};
        while remaining != {}
          invariant remaining <= start.counters.Keys && attached && counters.Keys == start.counters.Keys
          invariant DrainedBut(start, View(), start.counters.Keys - remaining)
          invariant DeltasOf(start, deltas, start.counters.Keys - remaining)
        {
          var name :| name in remaining;
          ghost var done := start.counters.Keys - remaining;
          VisitKeepsDrained(start, View(), done, name);
          VisitKeepsDeltas(start, View(), deltas, done, name);
          var moved := VisitOne(name);
          if moved.Some? {
            deltas := deltas[name := moved.value];
          }
          remaining := remaining - {name};
          assert start.counters.Keys - remaining == done + {name};
        }
        assert start.counters.Keys - remaining == start.counters.Keys;
      } else {
        assert start.counters.Keys == {};
      }
      AllVisitedIsDrained(start, View());
    }

    /** The structured query: totals since the session began. */
    method QueryTrafficStats() returns (s: Snapshot)
      requires !attached ==> counters == map[]
      modifies this
      ensures View() == Drained(old(View()))
      ensures Represents(s, totals)
    {
      var _ := Drain();
      s := SnapshotFromTotals(totals);
    }

    /** The legacy query: the text of what this drain moved, by outbound tag in order. */
    method QueryAllOutboundTrafficStats() returns (report: string)
      requires !attached ==> counters == map[]
      modifies this
      ensures View() == Drained(old(View()))
      ensures Reports(report, Moved(old(counters)))
      ensures IsLegacyText(report, old(counters))
    {
      ghost var before := counters;
      var deltas := Drain();
      var s := SnapshotFromTotals(deltas);
      report := PrintOutbound(s.outbound);
      ReportWrittenOut(report, deltas);
      MovedText(report, before);
    }
  }
}
