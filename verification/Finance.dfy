/** The platform's finance report: Pix payments received in a period, totalled and split by day.
    A day is the number of a calendar day in the reporting time zone; the day of an unreadable
    timestamp is None. Amounts are integer centavos. */
module Finance {
  import opened Wrappers

  datatype Status = Pending | Succeeded | Failed | Ambiguous | OtherStatus

  datatype Item = Item(pixIn: bool, status: Status, amount: int, fee: Option<int>, cost: Option<int>, day: Option<int>)

  datatype Metrics = Metrics(
    tpv: int, revenue: int, providerCost: int, costComplete: bool, costKnown: int, costMissing: int,
    margin: Option<int>, succeeded: int, pending: int, failed: int, ambiguous: int, averageTicket: int)

  datatype Point = Point(day: int, tpv: int, revenue: int, count: int)

  // --- what one item contributes --------------------------------------------------------

  function FeeOrZero(x: Item): int {
    if x.fee.Some? then x.fee.value else 0
  }

  /** The margin of one transaction, when it is known. */
  function TransactionMargin(x: Item): Option<int> {
    if !x.status.Succeeded? || x.cost.None? then None else Some(FeeOrZero(x) - x.cost.value)
  }

  /** The quantities the report adds up. */
  datatype Quantity = Amounts | Fees | Costs | Margins | KnownCosts | MissingCosts | Having(status: Status)

  function Value(q: Quantity, x: Item): int {
    match q
    case Amounts => if x.status.Succeeded? then x.amount else 0
    case Fees => if x.status.Succeeded? then FeeOrZero(x) else 0
    case Costs => if x.status.Succeeded? && x.cost.Some? then x.cost.value else 0
    case Margins => if TransactionMargin(x).Some? then TransactionMargin(x).value else 0
    case KnownCosts => if x.status.Succeeded? && x.cost.Some? then 1 else 0
    case MissingCosts => if x.status.Succeeded? && x.cost.None? then 1 else 0
    case Having(status) => if x.status == status then 1 else 0
  }

  function Sum(s: seq<Item>, q: Quantity): int {
    if s == [] then 0 else Sum(s[..|s| - 1], q) + Value(q, s[|s| - 1])
  }

  /** The part of a sum that falls on one day. */
  function DaySum(s: seq<Item>, day: int, q: Quantity): int {
    if s == [] then 0
    else DaySum(s[..|s| - 1], day, q) + if s[|s| - 1].day == Some(day) then Value(q, s[|s| - 1]) else 0
  }

  /** The part of a sum that falls on one of the given days. */
  function SumOn(s: seq<Item>, days: seq<int>, q: Quantity): int {
    if s == [] then 0
    else
      var x := s[|s| - 1];
      SumOn(s[..|s| - 1], days, q) + if x.day.Some? && x.day.value in days then Value(q, x) else 0
  }

  lemma {:induction false} SumAppends(a: seq<Item>, b: seq<Item>, q: Quantity)
    ensures Sum(a + b, q) == Sum(a, q) + Sum(b, q)
  {
    if b == [] {
      assert a + b == a;
    } else {
      assert (a + b)[..|a + b| - 1] == a + b[..|b| - 1];
      SumAppends(a, b[..|b| - 1], q);
    }
  }

  lemma SumWithoutOne(s: seq<Item>, i: nat, q: Quantity)
    requires i < |s|
    ensures Sum(s, q) == Sum(s[..i] + s[i + 1..], q) + Value(q, s[i])
    ensures multiset(s) == multiset(s[..i] + s[i + 1..]) + multiset{s[i]}
  {
    var front, x, back := s[..i], s[i], s[i + 1..];
    assert s == front + [x] + back;
    SumAppends(front + [x], back, q);
    SumAppends(front, [x], q);
    SumAppends(front, back, q);
    assert Sum([x], q) == Value(q, x);
  }

  lemma SameWithoutOne(s: seq<Item>, t: seq<Item>, x: Item)
    requires multiset(s) + multiset{x} == multiset(t) + multiset{x}
    ensures multiset(s) == multiset(t)
  {
    assert multiset(s) == multiset(s) + multiset{x} - multiset{x};
  }

  /** A sum does not depend on the order of the list. */
  lemma {:induction false} SumIgnoresOrder(a: seq<Item>, b: seq<Item>, q: Quantity)
    requires multiset(a) == multiset(b)
    ensures Sum(a, q) == Sum(b, q)
  {
    if a == [] {
      assert |multiset(b)| == 0;
    } else {
      var front, x := a[..|a| - 1], a[|a| - 1];
      assert a == front + [x];
      assert x in multiset(b);
      var i :| 0 <= i < |b| && b[i] == x;
      var rest := b[..i] + b[i + 1..];
      SumWithoutOne(b, i, q);
      SameWithoutOne(front, rest, x);
      SumIgnoresOrder(front, rest, q);
    }
  }

  // --- the period -----------------------------------------------------------------------

  /** The last `days` days, oldest first, ending today. */
  function Period(days: int, today: Option<int>): seq<int> {
    if days < 1 || today.None? then [] else seq(days, (i: int) => today.value - days + 1 + i)
  }

  method PeriodDateKeys(days: int, today: Option<int>) returns (keys: seq<int>)
    ensures keys == Period(days, today)
  {
    if days < 1 { return []; }
    if today.None? { return []; }
    var anchor := today.value;
    keys := [];
    var offset := days - 1;
    while offset >= 0
      invariant -1 <= offset <= days - 1
      invariant keys == Period(days, today)[..days - 1 - offset]
    {
      keys := keys + [anchor - offset];
      offset := offset - 1;
    }
  }

  /** Exactly the days up to today that are less than `days` days old, in order, each once. */
  lemma PeriodIsTheLastDays(days: int, today: int, day: int)
    ensures day in Period(days, Some(today)) <==> today - days < day <= today
    ensures |Period(days, Some(today))| == if days < 1 then 0 else days
    ensures forall i, j :: 0 <= i < j < |Period(days, Some(today))| ==>
              Period(days, Some(today))[i] < Period(days, Some(today))[j]
  {
    if today - days < day <= today {
      assert Period(days, Some(today))[day - (today - days + 1)] == day;
    }
  }

  predicate Accepts(keys: seq<int>, x: Item) {
    x.pixIn && x.day.Some? && x.day.value in keys
  }

  function Filtered(s: seq<Item>, keys: seq<int>): seq<Item> {
    if s == [] then []
    else
      var last := s[|s| - 1];
      Filtered(s[..|s| - 1], keys) + if Accepts(keys, last) then [last] else []
  }

  lemma {:induction false} FilteredKeepsExactlyTheAccepted(s: seq<Item>, keys: seq<int>, x: Item)
    ensures multiset(Filtered(s, keys))[x] == if Accepts(keys, x) then multiset(s)[x] else 0
  {
    if s != [] {
      FilteredKeepsExactlyTheAccepted(s[..|s| - 1], keys, x);
      assert s == s[..|s| - 1] + [s[|s| - 1]];
    }
  }

  lemma {:induction false} FilteredAppends(a: seq<Item>, b: seq<Item>, keys: seq<int>)
    ensures Filtered(a + b, keys) == Filtered(a, keys) + Filtered(b, keys)
  {
    if b == [] {
      assert a + b == a;
    } else {
      assert (a + b)[..|a + b| - 1] == a + b[..|b| - 1];
      FilteredAppends(a, b[..|b| - 1], keys);
    }
  }

  /** Every item kept by the filter has a bucket. */
  lemma EveryItemFindsItsBucket(s: seq<Item>, keys: seq<int>, x: Item)
    requires x in Filtered(s, keys)
    ensures x.day.Some? && x.day.value in keys
  {
    FilteredKeepsExactlyTheAccepted(s, keys, x);
    assert x in multiset(Filtered(s, keys));
  }

  // --- the report -----------------------------------------------------------------------

  function Totals(s: seq<Item>): Metrics {
    var missing, succeeded := Sum(s, MissingCosts), Sum(s, Having(Succeeded));
    Metrics(
      Sum(s, Amounts), Sum(s, Fees), Sum(s, Costs), missing == 0, Sum(s, KnownCosts), missing,
      if missing == 0 then Some(Sum(s, Fees) - Sum(s, Costs)) else None,
      succeeded, Sum(s, Having(Pending)), Sum(s, Having(Failed)), Sum(s, Having(Ambiguous)),
      if succeeded > 0 then TruncDiv(Sum(s, Amounts), succeeded) else 0)
  }

  function Bucket(s: seq<Item>, day: int): Point {
    Point(day, DaySum(s, day, Amounts), DaySum(s, day, Fees), DaySum(s, day, Having(Succeeded)))
  }

  function Buckets(s: seq<Item>, keys: seq<int>): seq<Point> {
    if keys == [] then [] else Buckets(s, keys[..|keys| - 1]) + [Bucket(s, keys[|keys| - 1])]
  }

  lemma {:induction false} SumIsNatural(s: seq<Item>, q: Quantity)
    requires q.KnownCosts? || q.MissingCosts? || q.Having?
    ensures Sum(s, q) >= 0
  {
    if s != [] { SumIsNatural(s[..|s| - 1], q); }
  }

  /** `n` is `m` with one more transaction counted. */
  ghost predicate Counts(m: Metrics, x: Item, n: Metrics) {
    && n.tpv == m.tpv + Value(Amounts, x) && n.revenue == m.revenue + Value(Fees, x)
    && n.providerCost == m.providerCost + Value(Costs, x)
    && n.costKnown == m.costKnown + Value(KnownCosts, x)
    && n.costMissing == m.costMissing + Value(MissingCosts, x)
    && n.costComplete == (n.costMissing == 0)
    && n.succeeded == m.succeeded + Value(Having(Succeeded), x)
    && n.pending == m.pending + Value(Having(Pending), x)
    && n.failed == m.failed + Value(Having(Failed), x)
    && n.ambiguous == m.ambiguous + Value(Having(Ambiguous), x)
  }

  lemma CountsOnce(m: Metrics, x: Item, n: Metrics, o: Metrics)
    requires Counts(m, x, n) && n.margin.None? && n.averageTicket == 0
    requires Counts(m, x, o) && o.margin.None? && o.averageTicket == 0
    ensures n == o
  {
  }

  /** The totals before the two fields that are set last. */
  function Running(s: seq<Item>): Metrics {
    Totals(s).(margin := None, averageTicket := 0)
  }

  lemma TotalsOfOneMore(s: seq<Item>, i: nat)
    requires i < |s|
    ensures Counts(Running(s[..i]), s[i], Running(s[..i + 1]))
    ensures Running(s[..i]).costMissing >= 0
    ensures Running(s[..i]).costComplete == (Running(s[..i]).costMissing == 0)
  {
    assert s[..i + 1][..i] == s[..i];
    SumIsNatural(s[..i], MissingCosts);
  }

  function Plus(p: Point, x: Item): Point {
    if x.day != Some(p.day) then p
    else p.(tpv := p.tpv + Value(Amounts, x), revenue := p.revenue + Value(Fees, x),
            count := p.count + Value(Having(Succeeded), x))
  }

  lemma BucketOfOneMore(s: seq<Item>, i: nat, day: int)
    requires i < |s|
    ensures Bucket(s[..i + 1], day) == Plus(Bucket(s[..i], day), s[i]) && Bucket(s[..i], day).day == day
  {
    assert s[..i + 1][..i] == s[..i];
  }

  method CountOne(m: Metrics, daily: map<int, Point>, x: Item) returns (metrics: Metrics, buckets: map<int, Point>)
    requires m.margin.None? && m.averageTicket == 0 && m.costMissing >= 0 && m.costComplete == (m.costMissing == 0)
    requires forall k <- daily :: daily[k].day == k
    ensures Counts(m, x, metrics) && metrics.margin.None? && metrics.averageTicket == 0
    ensures buckets.Keys == daily.Keys && forall k <- daily :: buckets[k] == Plus(daily[k], x)
  {
    metrics, buckets := m, daily;
    match x.status
    case Succeeded =>
      metrics := metrics.(succeeded := metrics.succeeded + 1, tpv := metrics.tpv + x.amount,
                          revenue := metrics.revenue + FeeOrZero(x));
      if x.cost.Some? {
        metrics := metrics.(providerCost := metrics.providerCost + x.cost.value, costKnown := metrics.costKnown + 1);
      } else {
        metrics := metrics.(costComplete := false, costMissing := metrics.costMissing + 1);
      }
      if x.day.Some? && x.day.value in buckets {
        var p := buckets[x.day.value];
        buckets := buckets[x.day.value :=
          p.(tpv := p.tpv + x.amount, revenue := p.revenue + FeeOrZero(x), count := p.count + 1)];
      }
    case Pending => metrics := metrics.(pending := metrics.pending + 1);
    case Failed => metrics := metrics.(failed := metrics.failed + 1);
    case Ambiguous => metrics := metrics.(ambiguous := metrics.ambiguous + 1);
    case OtherStatus =>
  }

  method OpenBuckets(keys: seq<int>) returns (buckets: map<int, Point>)
    ensures buckets.Keys == set k <- keys
    ensures forall k <- buckets :: buckets[k] == Bucket([], k)
  {
    buckets := map[];
    for i := 0 to |keys|
      invariant buckets.Keys == set k <- keys[..i]
      invariant forall k <- buckets :: buckets[k] == Point(k, 0, 0, 0)
    {
      assert keys[..i + 1] == keys[..i] + [keys[i]];
      buckets := buckets[keys[i] := Point(keys[i], 0, 0, 0)];
    }
    assert keys[..|keys|] == keys;
  }

  /** The loop invariant of the count: totals and buckets are those of the list counted so far. */
  ghost predicate Counted(s: seq<Item>, keys: seq<int>, m: Metrics, buckets: map<int, Point>) {
    && m == Running(s)
    && (forall i :: 0 <= i < |keys| ==> keys[i] in buckets)
    && (forall k <- buckets :: buckets[k] == Bucket(s, k))
  }

  lemma CountedOneMore(s: seq<Item>, i: nat, keys: seq<int>, m: Metrics, b: map<int, Point>, n: Metrics,
                       c: map<int, Point>)
    requires i < |s| && Counted(s[..i], keys, m, b)
    requires Counts(m, s[i], n) && n.margin.None? && n.averageTicket == 0
    requires c.Keys == b.Keys && forall k <- b :: c[k] == Plus(b[k], s[i])
    ensures Counted(s[..i + 1], keys, n, c)
  {
    hide Counts, Bucket, Plus, Totals;
    TotalsOfOneMore(s, i);
    CountsOnce(m, s[i], n, Running(s[..i + 1]));
    forall k <- b ensures c[k] == Bucket(s[..i + 1], k) { BucketOfOneMore(s, i, k); }
  }

  lemma CountedNothing(s: seq<Item>, keys: seq<int>, b: map<int, Point>)
    requires s == [] && b.Keys == (set k <- keys) && forall k <- b :: b[k] == Bucket([], k)
    ensures Counted(s, keys, Metrics(0, 0, 0, true, 0, 0, None, 0, 0, 0, 0, 0), b)
  {
  }

  lemma CountedIsReady(s: seq<Item>, keys: seq<int>, m: Metrics, b: map<int, Point>)
    requires Counted(s, keys, m, b)
    ensures m.margin.None? && m.averageTicket == 0
    ensures m.costMissing >= 0 && m.costComplete == (m.costMissing == 0)
    ensures forall k <- b :: b[k].day == k
  {
    SumIsNatural(s, MissingCosts);
  }

  method CountAll(transactions: seq<Item>, keys: seq<int>) returns (metrics: Metrics, buckets: map<int, Point>)
    ensures Counted(transactions, keys, metrics, buckets)
  {
    hide Counted, Counts, Plus, Bucket;
    metrics := Metrics(0, 0, 0, true, 0, 0, None, 0, 0, 0, 0, 0);
    buckets := OpenBuckets(keys);
    CountedNothing(transactions[..0], keys, buckets);
    for i := 0 to |transactions|
      invariant Counted(transactions[..i], keys, metrics, buckets)
    {
      ghost var m, b := metrics, buckets;
      CountedIsReady(transactions[..i], keys, m, b);
      metrics, buckets := CountOne(metrics, buckets, transactions[i]);
      CountedOneMore(transactions, i, keys, m, b, metrics, buckets);
    }
    assert transactions[..|transactions|] == transactions;
  }

  /** The values of the map, in the order its keys were inserted. */
  method DailyPoints(transactions: seq<Item>, keys: seq<int>, buckets: map<int, Point>) returns (daily: seq<Point>)
    requires forall i :: 0 <= i < |keys| ==> keys[i] in buckets && buckets[keys[i]] == Bucket(transactions, keys[i])
    ensures daily == Buckets(transactions, keys)
  {
    hide Bucket;
    daily := [];
    for i := 0 to |keys|
      invariant daily == Buckets(transactions, keys[..i])
    {
      assert keys[..i + 1][..i] == keys[..i];
      daily := daily + [buckets[keys[i]]];
    }
    assert keys[..|keys|] == keys;
  }

  lemma CountedIsRunning(s: seq<Item>, keys: seq<int>, m: Metrics, b: map<int, Point>)
    requires Counted(s, keys, m, b)
    ensures m == Totals(s).(margin := None, averageTicket := 0)
    ensures forall i :: 0 <= i < |keys| ==> keys[i] in b && b[keys[i]] == Bucket(s, keys[i])
    ensures Totals(s).costComplete == Totals(s).margin.Some?
    ensures Totals(s).margin.Some? ==> Totals(s).margin.value == Totals(s).revenue - Totals(s).providerCost
    ensures Totals(s).averageTicket == if Totals(s).succeeded > 0 then TruncDiv(Totals(s).tpv, Totals(s).succeeded)
            else 0
  {
  }

  /** The totals and the daily points hold exactly the sums over the kept transactions. */
  method AggregateFinance(items: seq<Item>, days: int, today: Option<int>)
    returns (metrics: Metrics, daily: seq<Point>, transactions: seq<Item>)
    ensures transactions == Filtered(items, Period(days, today))
    ensures metrics == Totals(transactions)
    ensures daily == Buckets(transactions, Period(days, today))
  {
    var keys := PeriodDateKeys(days, today);
    transactions := Filtered(items, keys);
    var buckets;
    metrics, buckets := CountAll(transactions, keys);
    CountedIsRunning(transactions, keys, metrics, buckets);
    hide Totals, Bucket, Buckets, Counted, Filtered, Period, Sum, DaySum;
    if metrics.succeeded > 0 {
      metrics := metrics.(averageTicket := TruncDiv(metrics.tpv, metrics.succeeded));
    }
    if metrics.costComplete {
      metrics := metrics.(margin := Some(metrics.revenue - metrics.providerCost));
    }
    daily := DailyPoints(transactions, keys, buckets);
  }

  // --- what the report promises ---------------------------------------------------------

  function Column(p: Point, q: Quantity): int
    requires q in {Amounts, Fees, Having(Succeeded)}
  {
    match q case Amounts => p.tpv case Fees => p.revenue case _ => p.count
  }

  function ColumnSum(points: seq<Point>, q: Quantity): int
    requires q in {Amounts, Fees, Having(Succeeded)}
  {
    if points == [] then 0 else ColumnSum(points[..|points| - 1], q) + Column(points[|points| - 1], q)
  }

  predicate Distinct(keys: seq<int>) {
    forall i, j :: 0 <= i < j < |keys| ==> keys[i] != keys[j]
  }

  lemma {:induction false} SumOnOneMoreDay(s: seq<Item>, days: seq<int>, day: int, q: Quantity)
    requires day !in days
    ensures SumOn(s, days + [day], q) == SumOn(s, days, q) + DaySum(s, day, q)
  {
    if s != [] { SumOnOneMoreDay(s[..|s| - 1], days, day, q); }
  }

  lemma {:induction false} SumOnNoDay(s: seq<Item>, q: Quantity)
    ensures SumOn(s, [], q) == 0
  {
    if s != [] { SumOnNoDay(s[..|s| - 1], q); }
  }

  /** The buckets of distinct days add up to everything that falls on one of those days. */
  lemma {:induction false} BucketsPartition(s: seq<Item>, keys: seq<int>, q: Quantity)
    requires Distinct(keys) && q in {Amounts, Fees, Having(Succeeded)}
    ensures ColumnSum(Buckets(s, keys), q) == SumOn(s, keys, q)
  {
    if keys == [] {
      SumOnNoDay(s, q);
    } else {
      var front, day := keys[..|keys| - 1], keys[|keys| - 1];
      assert keys == front + [day];
      BucketsPartition(s, front, q);
      SumOnOneMoreDay(s, front, day, q);
      assert Buckets(s, keys)[..|Buckets(s, keys)| - 1] == Buckets(s, front);
    }
  }

  lemma {:induction false} SumOnAllDays(s: seq<Item>, keys: seq<int>, q: Quantity)
    requires forall x <- s :: x.day.Some? && x.day.value in keys
    ensures SumOn(s, keys, q) == Sum(s, q)
  {
    if s != [] { SumOnAllDays(s[..|s| - 1], keys, q); }
  }

  /** The daily TPV, revenue and counts of a report add up to its totals. */
  lemma DailyAddsUpToTheTotals(items: seq<Item>, days: int, today: Option<int>)
    ensures var kept := Filtered(items, Period(days, today)); var daily := Buckets(kept, Period(days, today));
            && ColumnSum(daily, Amounts) == Totals(kept).tpv
            && ColumnSum(daily, Fees) == Totals(kept).revenue
            && ColumnSum(daily, Having(Succeeded)) == Totals(kept).succeeded
  {
    var keys := Period(days, today);
    var kept := Filtered(items, keys);
    forall x <- kept ensures x.day.Some? && x.day.value in keys { EveryItemFindsItsBucket(items, keys, x); }
    forall q: Quantity | q in {Amounts, Fees, Having(Succeeded)}
      ensures ColumnSum(Buckets(kept, keys), q) == Sum(kept, q)
    {
      BucketsPartition(kept, keys, q);
      SumOnAllDays(kept, keys, q);
    }
  }

  /** Every succeeded transaction is counted once as known or once as missing. */
  lemma {:induction false} KnownPlusMissingIsSucceeded(s: seq<Item>)
    ensures Totals(s).costKnown + Totals(s).costMissing == Totals(s).succeeded
  {
    if s != [] { KnownPlusMissingIsSucceeded(s[..|s| - 1]); }
  }

  lemma {:induction false} NothingMissing(s: seq<Item>)
    ensures Sum(s, MissingCosts) >= 0
    ensures Sum(s, MissingCosts) == 0 <==> forall x <- s :: x.status.Succeeded? ==> x.cost.Some?
    ensures Sum(s, MissingCosts) == 0 ==> Sum(s, Fees) - Sum(s, Costs) == Sum(s, Margins)
  {
    if s != [] {
      NothingMissing(s[..|s| - 1]);
      assert s == s[..|s| - 1] + [s[|s| - 1]];
    }
  }

  /** The report has a margin exactly when every succeeded transaction has a cost, that is, has a
      margin of its own; it is then the sum of those margins. */
  lemma MarginIsTheSumOfMargins(s: seq<Item>)
    ensures Totals(s).margin.Some? <==> forall x <- s :: x.status.Succeeded? ==> TransactionMargin(x).Some?
    ensures Totals(s).margin.Some? <==> Totals(s).costComplete
    ensures Totals(s).margin.Some? ==> Totals(s).margin.value == Sum(s, Margins)
  {
    NothingMissing(s);
  }

  function JoinMargins(a: Option<int>, b: Option<int>): Option<int> {
    if a.Some? && b.Some? then Some(a.value + b.value) else None
  }

  /** `m` is `x` and `y` added field by field. */
  ghost predicate IsJoin(m: Metrics, x: Metrics, y: Metrics) {
    && m.tpv == x.tpv + y.tpv && m.revenue == x.revenue + y.revenue && m.providerCost == x.providerCost + y.providerCost
    && m.costKnown == x.costKnown + y.costKnown && m.costMissing == x.costMissing + y.costMissing
    && m.succeeded == x.succeeded + y.succeeded && m.pending == x.pending + y.pending
    && m.failed == x.failed + y.failed && m.ambiguous == x.ambiguous + y.ambiguous
    && m.costComplete == (x.costComplete && y.costComplete) && m.margin == JoinMargins(x.margin, y.margin)
  }

  lemma TotalsAdd(a: seq<Item>, b: seq<Item>)
    ensures IsJoin(Totals(a + b), Totals(a), Totals(b))
  {
    hide Sum;
    forall q: Quantity ensures Sum(a + b, q) == Sum(a, q) + Sum(b, q) { SumAppends(a, b, q); }
    SumIsNatural(a, MissingCosts);
    SumIsNatural(b, MissingCosts);
  }

  lemma {:induction false} DaySumAppends(a: seq<Item>, b: seq<Item>, day: int, q: Quantity)
    ensures DaySum(a + b, day, q) == DaySum(a, day, q) + DaySum(b, day, q)
  {
    if b == [] {
      assert a + b == a;
    } else {
      assert (a + b)[..|a + b| - 1] == a + b[..|b| - 1];
      DaySumAppends(a, b[..|b| - 1], day, q);
    }
  }

  /** `p` is `x` and `y`, points of the same day, added. */
  ghost predicate IsPointSum(p: Point, x: Point, y: Point) {
    && p.day == x.day == y.day
    && p.tpv == x.tpv + y.tpv && p.revenue == x.revenue + y.revenue && p.count == x.count + y.count
  }

  lemma {:induction false} BucketsAdd(a: seq<Item>, b: seq<Item>, keys: seq<int>, i: nat)
    requires i < |keys|
    ensures |Buckets(a + b, keys)| == |Buckets(a, keys)| == |Buckets(b, keys)| == |keys|
    ensures IsPointSum(Buckets(a + b, keys)[i], Buckets(a, keys)[i], Buckets(b, keys)[i])
  {
    var n := |keys| - 1;
    if i == n {
      DaySumAppends(a, b, keys[n], Amounts);
      DaySumAppends(a, b, keys[n], Fees);
      DaySumAppends(a, b, keys[n], Having(Succeeded));
      if n > 0 { BucketsAdd(a, b, keys[..n], 0); }
    } else {
      BucketsAdd(a, b, keys[..n], i);
    }
  }

  /** The report of two lists put together is the two reports added: the totals field by field,
      and the daily points day by day. */
  lemma ReportsAdd(a: seq<Item>, b: seq<Item>, days: int, today: Option<int>)
    ensures var keys := Period(days, today);
            IsJoin(Totals(Filtered(a + b, keys)), Totals(Filtered(a, keys)), Totals(Filtered(b, keys)))
    ensures var keys := Period(days, today);
            var daily := Buckets(Filtered(a + b, keys), keys);
            var x, y := Buckets(Filtered(a, keys), keys), Buckets(Filtered(b, keys), keys);
            |daily| == |x| == |y| && forall i :: 0 <= i < |daily| ==> IsPointSum(daily[i], x[i], y[i])
  {
    var keys := Period(days, today);
    var fa, fb := Filtered(a, keys), Filtered(b, keys);
    FilteredAppends(a, b, keys);
    TotalsAdd(fa, fb);
    if keys != [] { BucketsAdd(fa, fb, keys, 0); }
    hide Totals, IsJoin, IsPointSum, Filtered, Period;
    forall i | 0 <= i < |Buckets(fa + fb, keys)|
      ensures IsPointSum(Buckets(fa + fb, keys)[i], Buckets(fa, keys)[i], Buckets(fb, keys)[i])
    {
      BucketsAdd(fa, fb, keys, i);
    }
  }

  function OnDay(s: seq<Item>, day: int): seq<Item> {
    if s == [] then []
    else OnDay(s[..|s| - 1], day) + if s[|s| - 1].day == Some(day) then [s[|s| - 1]] else []
  }

  lemma {:induction false} OnDayKeeps(s: seq<Item>, day: int, x: Item)
    ensures multiset(OnDay(s, day))[x] == if x.day == Some(day) then multiset(s)[x] else 0
  {
    if s != [] {
      OnDayKeeps(s[..|s| - 1], day, x);
      assert s == s[..|s| - 1] + [s[|s| - 1]];
    }
  }

  lemma {:induction false} DaySumIsASum(s: seq<Item>, day: int, q: Quantity)
    ensures DaySum(s, day, q) == Sum(OnDay(s, day), q)
  {
    if s != [] {
      var front, x := s[..|s| - 1], s[|s| - 1];
      var kept := OnDay(front, day);
      DaySumIsASum(front, day, q);
      if x.day == Some(day) {
        assert OnDay(s, day) == kept + [x];
        SumAppends(kept, [x], q);
        SumOfOne(x, q);
      } else {
        assert OnDay(s, day) == kept;
      }
    }
  }

  lemma SumOfOne(x: Item, q: Quantity)
    ensures Sum([x], q) == Value(q, x)
  {
    assert [x][..0] == [];
  }

  lemma DaySumIgnoresOrder(a: seq<Item>, b: seq<Item>, day: int, q: Quantity)
    requires multiset(a) == multiset(b)
    ensures DaySum(a, day, q) == DaySum(b, day, q)
  {
    DaySumIsASum(a, day, q);
    DaySumIsASum(b, day, q);
    forall x: Item ensures multiset(OnDay(a, day))[x] == multiset(OnDay(b, day))[x] {
      OnDayKeeps(a, day, x);
      OnDayKeeps(b, day, x);
    }
    assert multiset(OnDay(a, day)) == multiset(OnDay(b, day));
    SumIgnoresOrder(OnDay(a, day), OnDay(b, day), q);
  }

  lemma {:induction false} BucketsIgnoreOrder(a: seq<Item>, b: seq<Item>, keys: seq<int>)
    requires multiset(a) == multiset(b)
    ensures Buckets(a, keys) == Buckets(b, keys)
  {
    if keys != [] {
      BucketsIgnoreOrder(a, b, keys[..|keys| - 1]);
      var day := keys[|keys| - 1];
      DaySumIgnoresOrder(a, b, day, Amounts);
      DaySumIgnoresOrder(a, b, day, Fees);
      DaySumIgnoresOrder(a, b, day, Having(Succeeded));
    }
  }

  lemma TotalsIgnoreOrder(a: seq<Item>, b: seq<Item>)
    requires multiset(a) == multiset(b)
    ensures Totals(a) == Totals(b)
  {
    forall q: Quantity ensures Sum(a, q) == Sum(b, q) { SumIgnoresOrder(a, b, q); }
  }

  /** Reordering the input changes neither the totals nor the daily points. */
  lemma ReportIgnoresOrder(a: seq<Item>, b: seq<Item>, days: int, today: Option<int>)
    requires multiset(a) == multiset(b)
    ensures var keys := Period(days, today); var fa, fb := Filtered(a, keys), Filtered(b, keys);
            Totals(fa) == Totals(fb) && Buckets(fa, keys) == Buckets(fb, keys)
  {
    var keys := Period(days, today);
    var fa, fb := Filtered(a, keys), Filtered(b, keys);
    forall x: Item ensures multiset(fa)[x] == multiset(fb)[x] {
      FilteredKeepsExactlyTheAccepted(a, keys, x);
      FilteredKeepsExactlyTheAccepted(b, keys, x);
    }
    assert multiset(fa) == multiset(fb);
    TotalsIgnoreOrder(fa, fb);
    BucketsIgnoreOrder(fa, fb, keys);
  }
}
