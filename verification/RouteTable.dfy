/**
 Choosing the physical adapter on Windows.

 The default-route metrics are read from the bytes of the system's forwarding table, row by row, with
 the smallest kept for each interface. They are added to the interface metrics, and of the adapters
 that are up, have a gateway, are no loopback and are not excluded by name, the one with the smallest
 sum is chosen. An adapter without a default route ranks last.
 */
module RouteTable {
  import opened Wrappers
  import opened Text

  type Byte = b: nat | b < 256

  const HEADER := 8
  const ROW := 104
  const IF_INDEX := 8
  const FAMILY := 12
  const PREFIX_LENGTH := 40
  const METRIC := 84
  const AF_INET := 2

  const RANGE := 0x1_0000_0000

  // ---------- The table ----------

  /** A little-endian number of two bytes. */
  function Word16(b: seq<Byte>, at: nat): nat
    requires at + 2 <= |b|
  {
    (b[at] as nat) + 256 * (b[at + 1] as nat)
  }

  /** A little-endian number of four bytes. */
  function Word32(b: seq<Byte>, at: nat): (n: nat)
    requires at + 4 <= |b|
    ensures n < RANGE
  {
    Word16(b, at) + 0x1_0000 * Word16(b, at + 2)
  }

  /** How many rows the table announces and holds completely. */
  function Rows(table: seq<Byte>): (n: nat)
    ensures n > 0 ==> HEADER + n * ROW <= |table|
  {
    if |table| < HEADER then 0
    else
      var held := (|table| - HEADER) / ROW;
      if Word32(table, 0) < held then Word32(table, 0) else held
  }

  function Row(table: seq<Byte>, i: nat): (row: seq<Byte>)
    requires i < Rows(table)
    ensures |row| == ROW
  {
    RowFits(table, i);
    table[HEADER + i * ROW..HEADER + i * ROW + ROW]
  }

  lemma RowFits(table: seq<Byte>, i: nat)
    requires i < Rows(table)
    ensures HEADER + i * ROW + ROW <= |table|
  {
    assert i * ROW + ROW == (i + 1) * ROW <= Rows(table) * ROW;
  }

  /** The i-th row is an IPv4 default route through the interface. */
  predicate IsDefaultRoute(table: seq<Byte>, index: nat, i: nat)
    requires i < Rows(table)
  {
    var row := Row(table, i);
    Word16(row, FAMILY) == AF_INET && row[PREFIX_LENGTH] == 0 && Word32(row, IF_INDEX) == index
  }

  function RouteMetric(table: seq<Byte>, i: nat): (m: nat)
    requires i < Rows(table)
    ensures m < RANGE
  {
    Word32(Row(table, i), METRIC)
  }

  /** The lowest metric of an interface's default routes among the first `n` rows. */
  ghost predicate IsLowest(table: seq<Byte>, n: nat, index: nat, lowest: Option<nat>)
    requires n <= Rows(table)
  {
    match lowest
    case None => forall i: nat :: i < n ==> !IsDefaultRoute(table, index, i)
    case Some(m) =>
      && (exists i: nat :: i < n && IsDefaultRoute(table, index, i) && RouteMetric(table, i) == m)
      && (forall i: nat :: i < n && IsDefaultRoute(table, index, i) ==> m <= RouteMetric(table, i))
  }

  /** The number of four bytes, the lowest first. */
  function LittleEndian(a: nat, b: nat, c: nat, d: nat): nat {
    a + 256 * b + 65536 * c + 16777216 * d
  }

  /** Where the fields of the i-th row are. Rows of 104 bytes follow 8 bytes, of which four say how many. */
  lemma TableLayout(table: seq<Byte>, i: nat)
    requires i < Rows(table)
    ensures 8 + 104 * i + 104 <= |table|
    ensures i < LittleEndian(table[0], table[1], table[2], table[3])
    ensures var at := 8 + 104 * i;
      && (forall index: nat :: IsDefaultRoute(table, index, i) <==>
            && table[at + 12] == 2 && table[at + 13] == 0 && table[at + 40] == 0
            && index == LittleEndian(table[at + 8], table[at + 9], table[at + 10], table[at + 11]))
      && RouteMetric(table, i) == LittleEndian(table[at + 84], table[at + 85], table[at + 86], table[at + 87])
  {
    RowFits(table, i);
    var at, row := 8 + 104 * i, Row(table, i);
    assert forall k :: 0 <= k < 104 ==> row[k] == table[at + k];
  }

  /** A row counts exactly when it is announced and lies in the table completely. */
  lemma RowsAreComplete(table: seq<Byte>, i: nat)
    requires |table| >= 8
    ensures i < Rows(table) <==>
      i < LittleEndian(table[0], table[1], table[2], table[3]) && 8 + 104 * i + 104 <= |table|
  {
  }

  function Lookup(metrics: map<nat, nat>, index: nat): Option<nat> {
    if index in metrics then Some(metrics[index]) else None
  }

  ghost predicate Reads(table: seq<Byte>, n: nat, metrics: map<nat, nat>)
    requires n <= Rows(table)
  {
    forall index: nat :: IsLowest(table, n, index, Lookup(metrics, index))
  }

  lemma OneRow(table: seq<Byte>, n: nat, metrics: map<nat, nat>)
    requires n < Rows(table) && Reads(table, n, metrics)
    ensures var row := Row(table, n);
      var index, metric := Word32(row, IF_INDEX), Word32(row, METRIC);
      Reads(table, n + 1,
        if Word16(row, FAMILY) != AF_INET || row[PREFIX_LENGTH] != 0 then metrics
        else if index !in metrics || metric < metrics[index] then metrics[index := metric]
        else metrics)
  {
    hide Row, Word16, Word32, Rows;
    var row := Row(table, n);
    var index, metric := Word32(row, IF_INDEX), Word32(row, METRIC);
    var after :=
      if Word16(row, FAMILY) != AF_INET || row[PREFIX_LENGTH] != 0 then metrics
      else if index !in metrics || metric < metrics[index] then metrics[index := metric]
      else metrics;
    assert RouteMetric(table, n) == metric;
    forall other: nat ensures IsLowest(table, n + 1, other, Lookup(after, other)) {
      assert IsLowest(table, n, other, Lookup(metrics, other));
    }
  }

  /** The lowest metric of each interface over all complete IPv4 default routes. */
  method DefaultRouteMetrics(table: seq<Byte>) returns (metrics: map<nat, nat>)
    ensures Reads(table, Rows(table), metrics)
  {
    hide Reads, Word16, Word32;
    metrics := map[];
    NothingRead(table);
    if |table| < HEADER {
      return;
    }
    var count := Word32(table, 0);
    var i := 0;
    while i < count
      invariant i <= Rows(table) <= count
      invariant Reads(table, i, metrics)
    {
      var start := HEADER + i * ROW;
      if start + ROW > |table| {
        break;
      }
      assert i < Rows(table);
      var row := table[start..start + ROW];
      assert row == Row(table, i);
      OneRow(table, i, metrics);
      i := i + 1;
      if Word16(row, FAMILY) != AF_INET || row[PREFIX_LENGTH] != 0 {
        continue;
      }
      var index, metric := Word32(row, IF_INDEX), Word32(row, METRIC);
      if index !in metrics || metric < metrics[index] {
        metrics := metrics[index := metric];
      }
    }
  }

  lemma NothingRead(table: seq<Byte>)
    ensures Reads(table, 0, map[])
  {
  }

  /** A table has one reading. */
  lemma MetricsAreDetermined(table: seq<Byte>, a: map<nat, nat>, b: map<nat, nat>)
    requires Reads(table, Rows(table), a) && Reads(table, Rows(table), b)
    ensures a == b
  {
    hide Rows, IsDefaultRoute, RouteMetric;
    forall index: nat ensures Lookup(a, index) == Lookup(b, index) {
      LowestIsDetermined(table, index, Lookup(a, index), Lookup(b, index));
    }
    assert forall index: nat :: index in a <==> Lookup(a, index).Some?;
    assert forall index: nat :: index in b <==> Lookup(b, index).Some?;
    assert a.Keys == b.Keys;
  }

  lemma LowestIsDetermined(table: seq<Byte>, index: nat, a: Option<nat>, b: Option<nat>)
    requires IsLowest(table, Rows(table), index, a) && IsLowest(table, Rows(table), index, b)
    ensures a == b
  {
    hide Rows, IsDefaultRoute, RouteMetric;
  }

  // ---------- Adapters ----------

  datatype Adapter = Adapter(
    index: nat, name: string, up: bool, hasGateway: bool, loopback: bool, metric: nat)

  /** strings.EqualFold on ASCII. */
  predicate EqualFold(a: string, b: string) { ToLower(a) == ToLower(b) }

  predicate Eligible(a: Adapter, exclude: string) {
    a.up && a.hasGateway && !a.loopback && (exclude == "" || !EqualFold(a.name, exclude))
  }

  /** The lower metric wins, and of equal ones the lower index. */
  predicate Beats(a: Adapter, b: Adapter) {
    a.metric < b.metric || (a.metric == b.metric && a.index < b.index)
  }

  /** The index of the eligible adapter that none beats, if there is any. */
  ghost predicate IsDefault(adapters: seq<Adapter>, exclude: string, chosen: Option<nat>) {
    match chosen
    case None => forall a :: a in adapters ==> !Eligible(a, exclude)
    case Some(index) =>
      exists a :: a in adapters && Eligible(a, exclude) && a.index == index
        && forall b :: b in adapters && Eligible(b, exclude) ==> !Beats(b, a)
  }

  ghost predicate BestSoFar(adapters: seq<Adapter>, exclude: string, best: Option<Adapter>) {
    match best
    case None => forall a :: a in adapters ==> !Eligible(a, exclude)
    case Some(a) =>
      a in adapters && Eligible(a, exclude) && forall b :: b in adapters && Eligible(b, exclude) ==> !Beats(b, a)
  }

  method DefaultAdapter(adapters: seq<Adapter>, exclude: string) returns (chosen: Option<nat>)
    ensures IsDefault(adapters, exclude, chosen)
  {
    hide EqualFold;
    var best: Option<Adapter> := None;
    for i := 0 to |adapters|
      invariant BestSoFar(adapters[..i], exclude, best)
    {
      var candidate := adapters[i];
      assert adapters[..i + 1] == adapters[..i] + [candidate];
      if !candidate.up || !candidate.hasGateway || candidate.loopback {
        continue;
      }
      if exclude != "" && EqualFold(candidate.name, exclude) {
        continue;
      }
      if best.None? || candidate.metric < best.value.metric
        || (candidate.metric == best.value.metric && candidate.index < best.value.index)
      {
        best := Some(candidate);
      }
    }
    assert adapters[..|adapters|] == adapters;
    chosen := if best.Some? then Some(best.value.index) else None;
  }

  /** The choice depends on which adapters there are, not on their order. */
  lemma {:induction false} ChoiceIgnoresOrder(
    a: seq<Adapter>, b: seq<Adapter>, exclude: string, x: Option<nat>, y: Option<nat>)
    requires forall c :: c in a <==> c in b
    requires IsDefault(a, exclude, x) && IsDefault(b, exclude, y)
    ensures x == y
  {
    hide Eligible;
    if x.Some? && y.Some? {
      var p :| p in a && Eligible(p, exclude) && p.index == x.value
        && forall c :: c in a && Eligible(c, exclude) ==> !Beats(c, p);
      var q :| q in b && Eligible(q, exclude) && q.index == y.value
        && forall c :: c in b && Eligible(c, exclude) ==> !Beats(c, q);
      assert !Beats(p, q) && !Beats(q, p);
    }
  }

  /** One character is the other, or its other case. */
  ghost predicate SameLetter(a: char, b: char) {
    || a == b
    || ('a' <= a <= 'z' && b as int == a as int - 32)
    || ('a' <= b <= 'z' && a as int == b as int - 32)
  }

  /** Two names are equal up to letter case exactly when they are so character by character. */
  lemma EqualFoldExactlyWhen(a: string, b: string)
    ensures EqualFold(a, b) <==> |a| == |b| && forall i :: 0 <= i < |a| ==> SameLetter(a[i], b[i])
  {
    var x, y := ToLower(a), ToLower(b);
    assert forall i :: 0 <= i < |a| && i < |b| ==> (x[i] == y[i] <==> SameLetter(a[i], b[i]));
    if |a| == |b| && forall i :: 0 <= i < |a| ==> SameLetter(a[i], b[i]) {
      assert forall i :: 0 <= i < |a| ==> x[i] == y[i];
    }
  }

  /** Up, with a gateway, no loopback, and not the tunnel that is left out. */
  ghost predicate MayCarry(a: Adapter, exclude: string) {
    a.up == true && a.hasGateway == true && a.loopback == false && (exclude == "" || !EqualFold(a.name, exclude))
  }

  /** The choice, written out: of the adapters that may carry traffic the lowest by metric, then by index. */
  lemma DefaultWrittenOut(adapters: seq<Adapter>, exclude: string, chosen: Option<nat>)
    requires IsDefault(adapters, exclude, chosen)
    ensures chosen.None? ==> forall a :: a in adapters ==> !MayCarry(a, exclude)
    ensures chosen.Some? ==>
      exists a :: a in adapters && MayCarry(a, exclude) && a.index == chosen.value
        && forall b :: b in adapters && MayCarry(b, exclude) ==>
             a.metric < b.metric || (a.metric == b.metric && a.index <= b.index)
  {
    hide EqualFold;
    assert forall a :: MayCarry(a, exclude) <==> Eligible(a, exclude);
    if chosen.Some? {
      var a :| a in adapters && Eligible(a, exclude) && a.index == chosen.value
        && forall b :: b in adapters && Eligible(b, exclude) ==> !Beats(b, a);
      assert forall b :: b in adapters && MayCarry(b, exclude) ==> !Beats(b, a);
    }
  }

  // ---------- Metrics of adapters ----------

  /** The uint32 by which adapters are compared. */
  function EffectiveMetric(index: nat, interfaceMetric: nat, routeMetrics: map<nat, nat>, haveTable: bool): (m: nat)
    requires interfaceMetric < RANGE
    ensures m < RANGE
  {
    if !haveTable then interfaceMetric
    else if index !in routeMetrics then RANGE - 1
    else (interfaceMetric + routeMetrics[index]) % RANGE
  }

  /** An adapter as the system describes it. */
  datatype Link = Link(index: nat, name: string, up: bool, hasGateway: bool, loopback: bool, interfaceMetric: nat)

  predicate IsLink(l: Link) { l.index < RANGE && l.interfaceMetric < RANGE }

  function Ranked(l: Link, metrics: map<nat, nat>): Adapter
    requires IsLink(l)
  {
    Adapter(l.index, l.name, l.up, l.hasGateway, l.loopback, EffectiveMetric(l.index, l.interfaceMetric, metrics, true))
  }

  /** The metric of an interface by which the system ranks its default route. */
  function Cost(l: Link, metrics: map<nat, nat>): nat
    requires l.index in metrics
  {
    l.interfaceMetric + metrics[l.index]
  }

  /**
   An adapter with a default route is ranked rightly against every adapter whose own sum fits into
   32 bits exactly when its sum does.
   */
  lemma RankedRightlyExactlyWithinTheRange(l: Link, metric: nat)
    requires IsLink(l) && metric < RANGE
    ensures (forall other: Link, metrics: map<nat, nat> |
               IsLink(other) && l.index in metrics && metrics[l.index] == metric
               && other.index in metrics && Cost(other, metrics) < RANGE ::
               Ranked(l, metrics).metric < Ranked(other, metrics).metric <==> Cost(l, metrics) < Cost(other, metrics))
      <==> l.interfaceMetric + metric < RANGE
  {
    if l.interfaceMetric + metric >= RANGE {
      var other := Link((l.index + 1) % RANGE, "", true, true, false, RANGE - 1);
      var metrics: map<nat, nat> := map[l.index := metric, other.index := 0];
      assert Cost(other, metrics) == RANGE - 1 && Cost(l, metrics) >= RANGE;
      assert Ranked(l, metrics).metric < Ranked(other, metrics).metric;
    }
  }

  /** How an adapter is ranked, written out; without a table by its interface metric alone. */
  lemma RankWrittenOut(l: Link, metrics: map<nat, nat>)
    requires IsLink(l)
    ensures var a := Ranked(l, metrics);
      && a.index == l.index && a.name == l.name
      && a.up == l.up && a.hasGateway == l.hasGateway && a.loopback == l.loopback
      && (l.index !in metrics ==> a.metric == 4294967295)
      && (l.index in metrics ==> a.metric == (l.interfaceMetric + metrics[l.index]) % 4294967296)
    ensures EffectiveMetric(l.index, l.interfaceMetric, metrics, false) == l.interfaceMetric
  {
  }

  /** An adapter without a default route ranks last; a sum can at most tie with it. */
  lemma UnroutedRanksLast(l: Link, other: Link, metrics: map<nat, nat>)
    requires IsLink(l) && IsLink(other) && l.index in metrics && other.index !in metrics
    ensures Ranked(l, metrics).metric <= Ranked(other, metrics).metric
    ensures Ranked(l, metrics).metric == Ranked(other, metrics).metric <==> Cost(l, metrics) % RANGE == RANGE - 1
  {
  }

  /** The adapters with their metrics, as the system lists them. */
  function Adapters(links: seq<Link>, metrics: map<nat, nat>): (adapters: seq<Adapter>)
    requires forall k :: k in links ==> IsLink(k)
    ensures |adapters| == |links|
  {
    if links == [] then []
    else
      assert forall k :: k in links[..|links| - 1] ==> k in links;
      Adapters(links[..|links| - 1], metrics) + [Ranked(links[|links| - 1], metrics)]
  }

  lemma {:induction false} AdaptersAreRanked(links: seq<Link>, metrics: map<nat, nat>)
    requires forall k :: k in links ==> IsLink(k)
    ensures forall i :: 0 <= i < |links| ==> Adapters(links, metrics)[i] == Ranked(links[i], metrics)
  {
    if links != [] {
      AdaptersAreRanked(links[..|links| - 1], metrics);
    }
  }

  /** Links none of whose sums leaves 32 bits. */
  ghost predicate WithinRange(links: seq<Link>, metrics: map<nat, nat>) {
    forall k :: k in links ==> IsLink(k) && (k.index in metrics ==> Cost(k, metrics) < RANGE)
  }

  /** The adapter chosen is one of the links, eligible and beaten by none. */
  lemma ChosenLink(links: seq<Link>, metrics: map<nat, nat>, exclude: string, chosen: nat) returns (l: Link)
    requires WithinRange(links, metrics)
    requires IsDefault(Adapters(links, metrics), exclude, Some(chosen))
    ensures l in links && l.index == chosen && Eligible(Ranked(l, metrics), exclude)
    ensures forall k | k in links && Eligible(Ranked(k, metrics), exclude) ::
      !Beats(Ranked(k, metrics), Ranked(l, metrics))
  {
    hide Eligible, Beats, EffectiveMetric;
    AdaptersAreRanked(links, metrics);
    var adapters := Adapters(links, metrics);
    var a :| a in adapters && Eligible(a, exclude) && a.index == chosen
      && forall b :: b in adapters && Eligible(b, exclude) ==> !Beats(b, a);
    var i :| 0 <= i < |adapters| && adapters[i] == a;
    l := links[i];
    forall k | k in links && Eligible(Ranked(k, metrics), exclude)
      ensures !Beats(Ranked(k, metrics), Ranked(l, metrics))
    {
      var j :| 0 <= j < |links| && links[j] == k;
      assert adapters[j] in adapters;
    }
  }

  /**
   From the bytes of the table to the choice: when no sum leaves 32 bits, the adapter chosen costs no
   more over one of its default routes than any eligible adapter over any default route of the
   table. Only if that route costs the very maximum may an adapter without a default route tie.
   */
  lemma {:induction false} NoDefaultRouteIsCheaper(
    table: seq<Byte>, metrics: map<nat, nat>, links: seq<Link>, exclude: string, chosen: nat, k: Link, i: nat)
    returns (l: Link, j: nat)
    requires Reads(table, Rows(table), metrics) && WithinRange(links, metrics)
    requires IsDefault(Adapters(links, metrics), exclude, Some(chosen))
    requires k in links && Eligible(Ranked(k, metrics), exclude)
    requires i < Rows(table) && IsDefaultRoute(table, k.index, i)
    requires chosen in metrics || k.interfaceMetric + RouteMetric(table, i) < RANGE - 1
    ensures l in links && l.index == chosen && Eligible(Ranked(l, metrics), exclude)
    ensures j < Rows(table) && IsDefaultRoute(table, chosen, j)
    ensures l.interfaceMetric + RouteMetric(table, j) <= k.interfaceMetric + RouteMetric(table, i)
  {
    hide Rows, IsDefaultRoute, RouteMetric, Eligible, IsDefault;
    l := ChosenLink(links, metrics, exclude, chosen);
    assert IsLowest(table, Rows(table), k.index, Lookup(metrics, k.index));
    assert IsLowest(table, Rows(table), chosen, Lookup(metrics, chosen));
    j :| j < Rows(table) && IsDefaultRoute(table, chosen, j) && RouteMetric(table, j) == metrics[chosen];
    assert !Beats(Ranked(k, metrics), Ranked(l, metrics));
  }
}
