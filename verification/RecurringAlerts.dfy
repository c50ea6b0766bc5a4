/** Drift alerts that recur over report history (scripts/execution_gate_history_report.py). */
module RecurringAlerts {
  import opened Text
  import opened Sorting
  import opened Wrappers

  /** A decoded number: missing or null, a boolean, an integer or a float. */
  datatype Num = Missing | Flag(b: bool) | Whole(n: int) | Fraction(r: real)

  function AsFloat(x: Num): Option<real> {
    match x
    case Missing => None
    case Flag(b) => Some(if b then 1.0 else 0.0)
    case Whole(n) => Some(n as real)
    case Fraction(r) => Some(r)
  }

  function AsInt(x: Num): Option<int> {
    match x
    case Flag(b) => Some(if b then 1 else 0)
    case Whole(n) => Some(n)
    case _ => None
  }

  /** `float(x or default)`: zero counts as missing. */
  function FloatOr(x: Num, default: real): real {
    match AsFloat(x)
    case None => default
    case Some(r) => if r == 0.0 then default else r
  }

  datatype Metrics = Metrics(criticalRegressions: Num, passRate: Num, newFailures: Num)

  type Row = (string, Metrics)

  predicate NeedsAttention(m: Metrics) {
    var critical, rate, fresh_ := AsFloat(m.criticalRegressions), AsFloat(m.passRate), AsFloat(m.newFailures);
    (critical.Some? && critical.value > 0.0) || (rate.Some? && rate.value < 1.0) || (fresh_.Some? && fresh_.value > 0.0)
  }

  function RowAlerts(): Row -> bool {
    (row: Row) => NeedsAttention(row.1)
  }

  predicate RowLe(a: Row, b: Row) {
    var ca, cb := FloatOr(a.1.criticalRegressions, 0.0), FloatOr(b.1.criticalRegressions, 0.0);
    var ra, rb := FloatOr(a.1.passRate, 1.0), FloatOr(b.1.passRate, 1.0);
    var na, nb := FloatOr(a.1.newFailures, 0.0), FloatOr(b.1.newFailures, 0.0);
    if ca != cb then ca > cb
    else if ra != rb then ra < rb
    else if na != nb then na > nb
    else Le(a.0, b.0)
  }

  /** A number's value, if it is one; a truth value counts as one or zero. */
  ghost predicate HasValue(x: Num, r: real) {
    x == Fraction(r) || (x.Whole? && x.n as real == r) || (x == Flag(r == 1.0) && r in {0.0, 1.0})
  }

  /** A row needs attention exactly if it has critical regressions, a pass rate below one, or new
      failures. */
  lemma AttentionExactlyWhen(m: Metrics)
    ensures NeedsAttention(m) <==>
            || (exists r :: HasValue(m.criticalRegressions, r) && r > 0.0)
            || (exists r :: HasValue(m.passRate, r) && r < 1.0)
            || (exists r :: HasValue(m.newFailures, r) && r > 0.0)
  {
    ValueOf(m.criticalRegressions);
    ValueOf(m.passRate);
    ValueOf(m.newFailures);
    hide HasValue, AsFloat;
  }

  lemma ValueOf(x: Num)
    ensures forall r :: HasValue(x, r) <==> AsFloat(x) == Some(r)
  {
  }

  /** A count above zero is what the critical and new-failure columns count; fractions count as none. */
  lemma CountIs(x: Num)
    ensures Count(x) == if x.Whole? then x.n else if x == Flag(true) then 1 else 0
  {
  }

  /** The selected rows in order: criticals do not rise; among equals the rates, with zero and missing
      counting as one, do not fall; then new failures do not rise; then keys are in order. */
  lemma RowsInOrder(a: Row, b: Row)
    requires RowLe(a, b)
    ensures var ca, cb := Sized(a.1.criticalRegressions), Sized(b.1.criticalRegressions);
            var ra, rb := Rated(a.1.passRate), Rated(b.1.passRate);
            var na, nb := Sized(a.1.newFailures), Sized(b.1.newFailures);
            && ca >= cb && (ca == cb ==> ra <= rb) && (ca == cb && ra == rb ==> na >= nb)
            && (ca == cb && ra == rb && na == nb ==> Le(a.0, b.0))
  {
  }

  function Sized(x: Num): real {
    match x case Missing => 0.0 case Flag(b) => if b then 1.0 else 0.0 case Whole(n) => n as real case Fraction(r) => r
  }

  function Rated(x: Num): real {
    if x.Missing? || Sized(x) == 0.0 then 1.0 else Sized(x)
  }

  lemma RowOrder()
    ensures TotalPreorder(RowLe)
  {
    hide FloatOr, Le;
    LeOrder();
  }

  /** The keys of a dictionary are distinct. */
  ghost predicate Keyed(rows: seq<Row>) {
    forall i, j | 0 <= i < j < |rows| :: rows[i].0 != rows[j].0
  }

  /** Exactly the rows that need attention, most critical first. */
  method SelectBreakdownAlertRows(breakdown: seq<Row>) returns (rows: seq<Row>)
    ensures SortedVersion(rows, Filter(breakdown, RowAlerts()), RowLe)
  {
    hide NeedsAttention, RowLe, Sort, Filter;
    var selected: seq<Row> := [];
    FilterNone(RowAlerts());
    for i := 0 to |breakdown|
      invariant selected == Filter(breakdown[..i], RowAlerts())
    {
      FilterAppend(breakdown[..i], breakdown[i], RowAlerts());
      assert breakdown[..i + 1] == breakdown[..i] + [breakdown[i]];
      if NeedsAttention(breakdown[i].1) {
        selected := selected + [breakdown[i]];
      }
    }
    assert breakdown[..|breakdown|] == breakdown;
    RowOrder();
    SortSorts(selected, RowLe);
    rows := Sort(selected, RowLe);
  }

  /** Among rows equally critical the worse pass rate comes first, except a rate of zero, which sorts
      as if everything had passed: behind every lower rate, and among the rates of one by the count
      of new failures and the key. */
  lemma WorseRateFirstUnlessZero(a: Row, b: Row, x: real, y: real)
    requires FloatOr(a.1.criticalRegressions, 0.0) == FloatOr(b.1.criticalRegressions, 0.0)
    requires AsFloat(a.1.passRate) == Some(x) && AsFloat(b.1.passRate) == Some(y) && 0.0 <= x < y <= 1.0
    ensures x != 0.0 ==> !RowLe(b, a)
    ensures x == 0.0 && y < 1.0 ==> !RowLe(a, b)
    ensures x == 0.0 && y == 1.0 ==>
              var m, n := FloatOr(a.1.newFailures, 0.0), FloatOr(b.1.newFailures, 0.0);
              RowLe(a, b) <==> m > n || (m == n && Le(a.0, b.0))
  {
  }

  lemma ZeroRateSortsLast()
    ensures var a := ("a", Metrics(Missing, Fraction(0.0), Missing));
            var b := ("b", Metrics(Missing, Fraction(0.5), Missing));
            NeedsAttention(a.1) && NeedsAttention(b.1) && !RowLe(a, b)
  {
  }

  // ---------------------------------------------------------------------------------------
  // Aggregation
  // ---------------------------------------------------------------------------------------

  datatype Attempt = Attempt(generatedAt: string, reportPath: string, runId: string, breakdown: seq<Row>)

  datatype Bucket = Bucket(key: string, drift: nat, critical: nat, newFailure: nat, worst: real,
                           latestAt: string, latestPath: string, latestRun: string,
                           latestRate: Option<real>, latestCritical: int)

  /** An alert: the attempt and its metrics for the key. */
  type Alert = (Attempt, Metrics)

  function Count(x: Num): int {
    match AsInt(x)
    case None => 0
    case Some(n) => n
  }

  function Find(rows: seq<Row>, key: string): Option<Metrics> {
    if rows == [] then None else if rows[0].0 == key then Some(rows[0].1) else Find(rows[1..], key)
  }

  /** Newest first, the attempts in which the key alerts. */
  ghost function AlertsOf(attempts: seq<Attempt>, key: string): seq<Alert> {
    if attempts == [] then []
    else
      var last := attempts[|attempts| - 1];
      AlertsOf(attempts[..|attempts| - 1], key) + AlertIn(last, key)
  }

  ghost function AlertIn(a: Attempt, key: string): seq<Alert> {
    var m := Find(a.breakdown, key);
    if m.Some? && NeedsAttention(m.value) then [(a, m.value)] else []
  }

  /** The attempt alerts for the key. */
  ghost predicate AlertsFor(a: Attempt, key: string) {
    exists m :: (key, m) in a.breakdown && NeedsAttention(m)
  }

  ghost function Alerting(key: string): Attempt -> bool {
    a => AlertsFor(a, key)
  }

  /** The alerts of a key belong, one for one and in order, to the attempts that alert for it, and each
      carries that attempt's metrics. */
  lemma {:induction false} AlertsFollowAttempts(attempts: seq<Attempt>, key: string)
    requires forall a | a in attempts :: Keyed(a.breakdown)
    ensures var alerts, found := AlertsOf(attempts, key), Filter(attempts, Alerting(key));
            && |alerts| == |found|
            && forall i | 0 <= i < |alerts| ::
                 alerts[i].0 == found[i] && (key, alerts[i].1) in found[i].breakdown && NeedsAttention(alerts[i].1)
  {
    hide NeedsAttention, Filter, Find, Keyed;
    if attempts == [] {
      FilterNone(Alerting(key));
    } else {
      var before, last := attempts[..|attempts| - 1], attempts[|attempts| - 1];
      assert last in attempts;
      AlertsFollowAttempts(before, key);
      FilterAppend(before, last, Alerting(key));
      assert before + [last] == attempts;
      AlertInIs(last, key);
    }
  }

  lemma AlertInIs(a: Attempt, key: string)
    requires Keyed(a.breakdown)
    ensures AlertsFor(a, key) <==> AlertIn(a, key) != []
    ensures AlertIn(a, key) != [] ==>
              && |AlertIn(a, key)| == 1 && AlertIn(a, key)[0].0 == a
              && (key, AlertIn(a, key)[0].1) in a.breakdown && NeedsAttention(AlertIn(a, key)[0].1)
  {
    hide NeedsAttention, Keyed;
    FindMember(a.breakdown, key);
    if AlertsFor(a, key) {
      var m :| (key, m) in a.breakdown && NeedsAttention(m);
      FindKeyed(a.breakdown, (key, m));
    }
  }

  function HasCritical(): Alert -> bool { (x: Alert) => Count(x.1.criticalRegressions) > 0 }
  function HasNewFailure(): Alert -> bool { (x: Alert) => Count(x.1.newFailures) > 0 }

  /** The latest fields come from the first alert with a timestamp, or from the last alert if none
      has one. */
  ghost predicate LatestFrom(b: Bucket, alerts: seq<Alert>, i: nat) {
    && i < |alerts|
    && (forall j | 0 <= j < i :: alerts[j].0.generatedAt == "")
    && (alerts[i].0.generatedAt != "" || i == |alerts| - 1)
    && b.latestAt == alerts[i].0.generatedAt && b.latestPath == alerts[i].0.reportPath
    && b.latestRun == alerts[i].0.runId && b.latestCritical == Count(alerts[i].1.criticalRegressions)
  }

  /** What a bucket says about all alerts of its key. */
  ghost predicate Describes(b: Bucket, key: string, alerts: seq<Alert>) {
    && b.key == key
    && b.drift == |alerts|
    && b.critical == |Filter(alerts, HasCritical())|
    && b.newFailure == |Filter(alerts, HasNewFailure())|
    && Worst(b.worst, alerts)
    && FirstRate(b.latestRate, alerts)
    && (alerts != [] ==> exists i: nat :: LatestFrom(b, alerts, i))
    && (alerts == [] ==> b.latestAt == "")
  }

  /** The minimum of 1.0 and every rate. */
  ghost predicate Worst(worst: real, alerts: seq<Alert>) {
    && worst <= 1.0
    && (forall i | 0 <= i < |alerts| && AsFloat(alerts[i].1.passRate).Some? ::
        worst <= AsFloat(alerts[i].1.passRate).value)
    && (worst == 1.0 || exists i :: 0 <= i < |alerts| && AsFloat(alerts[i].1.passRate) == Some(worst))
  }

  /** The rate of the newest alert that has one. */
  ghost predicate FirstRate(rate: Option<real>, alerts: seq<Alert>) {
    match rate
    case None => forall i | 0 <= i < |alerts| :: AsFloat(alerts[i].1.passRate) == None
    case Some(r) => exists i :: 0 <= i < |alerts| && AsFloat(alerts[i].1.passRate) == rate
                             && forall j | 0 <= j < i :: AsFloat(alerts[j].1.passRate) == None
  }

  const EMPTY: Bucket := Bucket("", 0, 0, 0, 1.0, "", "", "", None, 0)

  /** One alert counted into its bucket. */
  function Counted(b: Bucket, x: Alert): Bucket {
    var rate := AsFloat(x.1.passRate);
    var c := b.(drift := b.drift + 1,
                critical := if Count(x.1.criticalRegressions) > 0 then b.critical + 1 else b.critical,
                newFailure := if Count(x.1.newFailures) > 0 then b.newFailure + 1 else b.newFailure,
                worst := if rate.Some? && rate.value < b.worst then rate.value else b.worst,
                latestRate := if b.latestRate.None? then rate else b.latestRate);
    if b.latestAt != "" then c
    else c.(latestAt := x.0.generatedAt, latestPath := x.0.reportPath, latestRun := x.0.runId,
            latestCritical := Count(x.1.criticalRegressions))
  }

  lemma WorstStep(worst: real, alerts: seq<Alert>, x: Alert)
    requires Worst(worst, alerts)
    ensures var rate := AsFloat(x.1.passRate);
            Worst(if rate.Some? && rate.value < worst then rate.value else worst, alerts + [x])
  {
    hide AsFloat;
    var rate := AsFloat(x.1.passRate);
    var all := alerts + [x];
    assert all[|alerts|] == x;
    if worst != 1.0 && !(rate.Some? && rate.value < worst) {
      var i :| 0 <= i < |alerts| && AsFloat(alerts[i].1.passRate) == Some(worst);
      assert all[i] == alerts[i];
    }
  }

  lemma FirstRateStep(rate: Option<real>, alerts: seq<Alert>, x: Alert)
    requires FirstRate(rate, alerts)
    ensures FirstRate(if rate.None? then AsFloat(x.1.passRate) else rate, alerts + [x])
  {
    hide AsFloat;
    var all := alerts + [x];
    assert all[|alerts|] == x;
    if rate.Some? {
      var i :|
        && 0 <= i < |alerts| && AsFloat(alerts[i].1.passRate) == rate
        && forall j | 0 <= j < i :: AsFloat(alerts[j].1.passRate) == None;
      assert all[i] == alerts[i];
    }
  }

  lemma CountedDescribes(b: Bucket, key: string, alerts: seq<Alert>, x: Alert)
    requires Describes(b, key, alerts)
    ensures Describes(Counted(b, x), key, alerts + [x])
  {
    hide AsFloat, Count, Worst, FirstRate, Filter;
    WorstStep(b.worst, alerts, x);
    FirstRateStep(b.latestRate, alerts, x);
    FilterAppend(alerts, x, HasCritical());
    FilterAppend(alerts, x, HasNewFailure());
    var all := alerts + [x];
    if b.latestAt != "" {
      var i: nat :| LatestFrom(b, alerts, i);
      assert all[i] == alerts[i];
      assert LatestFrom(Counted(b, x), all, i);
    } else {
      assert all[|alerts|] == x;
      assert LatestFrom(Counted(b, x), all, |alerts|) by {
        if alerts != [] {
          var i: nat :| LatestFrom(b, alerts, i);
          assert i == |alerts| - 1;
        }
      }
    }
  }

  /** With timestamps everywhere the latest fields come from the newest alerting attempt. */
  lemma LatestIsNewest(b: Bucket, key: string, alerts: seq<Alert>)
    requires Describes(b, key, alerts) && alerts != [] && forall x | x in alerts :: x.0.generatedAt != ""
    ensures b.latestAt == alerts[0].0.generatedAt && b.latestPath == alerts[0].0.reportPath
    ensures b.latestRun == alerts[0].0.runId && b.latestCritical == Count(alerts[0].1.criticalRegressions)
  {
    hide AsFloat, Count, Worst, FirstRate, Filter;
    var i: nat :| LatestFrom(b, alerts, i);
    assert alerts[0] in alerts;
  }

  lemma CriticalWithinDrift(b: Bucket, key: string, alerts: seq<Alert>)
    requires Describes(b, key, alerts)
    ensures b.critical <= b.drift && b.newFailure <= b.drift
  {
    FilterMultiset(alerts, HasCritical());
    FilterMultiset(alerts, HasNewFailure());
  }

  predicate BucketLe(a: Bucket, b: Bucket) {
    if a.critical != b.critical then a.critical > b.critical
    else if a.drift != b.drift then a.drift > b.drift
    else if a.worst != b.worst then a.worst < b.worst
    else Le(a.key, b.key)
  }

  /** More critical attempts first, then more drift, then the worse rate, then the key. */
  lemma BucketsInOrder(a: Bucket, b: Bucket)
    requires BucketLe(a, b)
    ensures a.critical >= b.critical && (a.critical == b.critical ==> a.drift >= b.drift)
    ensures a.critical == b.critical && a.drift == b.drift ==>
              a.worst <= b.worst && (a.worst == b.worst ==> Le(a.key, b.key))
  {
  }

  lemma BucketOrder()
    ensures TotalPreorder(BucketLe)
  {
    LeOrder();
  }

  lemma {:induction false} FindKeyed(rows: seq<Row>, row: Row)
    requires Keyed(rows) && row in rows
    ensures Find(rows, row.0) == Some(row.1)
  {
    if rows[0] != row {
      assert row in rows[1..];
      var i :| 0 < i < |rows| && rows[i] == row;
      assert rows[0].0 != rows[i].0;
      FindKeyed(rows[1..], row);
    }
  }

  lemma {:induction false} FindMember(rows: seq<Row>, key: string)
    ensures Find(rows, key).Some? ==> (key, Find(rows, key).value) in rows
  {
    if rows != [] && rows[0].0 != key {
      FindMember(rows[1..], key);
    }
  }

  /** The selected rows name each alerting key of the attempt once, with its metrics. */
  lemma SelectedRows(breakdown: seq<Row>, rows: seq<Row>)
    requires Keyed(breakdown) && SortedVersion(rows, Filter(breakdown, RowAlerts()), RowLe)
    ensures Keyed(rows)
    ensures forall i | 0 <= i < |rows| :: NeedsAttention(rows[i].1) && Find(breakdown, rows[i].0) == Some(rows[i].1)
    ensures forall key | Find(breakdown, key).Some? && NeedsAttention(Find(breakdown, key).value) ::
              exists i :: 0 <= i < |rows| && rows[i].0 == key
  {
    hide NeedsAttention, RowLe, Keyed;
    var selected := Filter(breakdown, RowAlerts());
    FilterMembers(breakdown, RowAlerts());
    assert forall row :: row in rows <==> row in multiset(rows);
    assert forall row :: row in selected <==> row in multiset(selected);
    forall i | 0 <= i < |rows| ensures NeedsAttention(rows[i].1) && Find(breakdown, rows[i].0) == Some(rows[i].1) {
      assert rows[i] in multiset(rows);
      FindKeyed(breakdown, rows[i]);
    }
    forall key | Find(breakdown, key).Some? && NeedsAttention(Find(breakdown, key).value)
      ensures exists i :: 0 <= i < |rows| && rows[i].0 == key
    {
      FindMember(breakdown, key);
      assert (key, Find(breakdown, key).value) in rows;
    }
    FilterKeyed(breakdown, RowAlerts());
    SameKeyed(selected, rows);
  }

  lemma {:induction false} FilterKeyed(rows: seq<Row>, p: Row -> bool)
    requires Keyed(rows)
    ensures Keyed(Filter(rows, p))
  {
    if rows != [] {
      FilterKeyed(rows[1..], p);
      FilterMembers(rows[1..], p);
      forall row | row in Filter(rows[1..], p) ensures row.0 != rows[0].0 {
        var i :| 0 < i < |rows| && rows[i] == row;
      }
    }
  }

  /** Distinct keys survive reordering. */
  lemma SameKeyed(a: seq<Row>, b: seq<Row>)
    requires Keyed(a) && multiset(a) == multiset(b)
    ensures Keyed(b)
  {
    DistinctOnce(a);
    OnceDistinct(b);
    forall i, j | 0 <= i < j < |b| ensures b[i].0 != b[j].0 {
      assert b[i] in multiset(a) && b[j] in multiset(a);
      assert b[i] in a && b[j] in a;
    }
  }

  lemma {:induction false} DistinctOnce<T>(a: seq<T>)
    requires forall i, j | 0 <= i < j < |a| :: a[i] != a[j]
    ensures forall x | x in multiset(a) :: multiset(a)[x] == 1
  {
    if a != [] {
      DistinctOnce(a[1..]);
      assert a == [a[0]] + a[1..];
      assert a[0] !in a[1..];
      assert a[0] !in multiset(a[1..]);
    }
  }

  lemma OnceDistinct<T>(b: seq<T>)
    requires forall x | x in multiset(b) :: multiset(b)[x] == 1
    ensures forall i, j | 0 <= i < j < |b| :: b[i] != b[j]
  {
    forall i, j | 0 <= i < j < |b| ensures b[i] != b[j] {
      assert b == b[..i] + [b[i]] + b[i + 1..j] + [b[j]] + b[j + 1..];
      assert b[i] in multiset(b);
    }
  }

  datatype Table = Table(order: seq<string>, buckets: map<string, Bucket>)

  /** A dictionary of buckets describes the alerts seen so far: those of `attempts`, and for the keys
      in `also` one more. */
  ghost predicate Accounts(t: Table, attempts: seq<Attempt>, last: seq<Attempt>, also: set<string>) {
    && (forall k :: k in t.buckets <==> k in t.order)
    && (forall i, j | 0 <= i < j < |t.order| :: t.order[i] != t.order[j])
    && (forall k | k in t.buckets ::
          Describes(t.buckets[k], k, AlertsOf(attempts + (if k in also then last else []), k)))
    && (forall k :: k in t.buckets <==> AlertsOf(attempts + (if k in also then last else []), k) != [])
  }

  method CountRow(t: Table, attempt: Attempt, row: Row, ghost before: seq<Attempt>, ghost also: set<string>)
    returns (r: Table)
    requires Accounts(t, before, [attempt], also) && row.0 !in also
    requires Find(attempt.breakdown, row.0) == Some(row.1) && NeedsAttention(row.1)
    ensures Accounts(r, before, [attempt], also + {row.0})
  {
    hide Describes, AlertsOf, Find, NeedsAttention, Counted;
    var key := row.0;
    var order, buckets := t.order, t.buckets;
    if key !in buckets {
      order := order + [key];
      buckets := buckets[key := EMPTY.(key := key)];
    }
    CountedInto(buckets[key], before, attempt, row);
    buckets := buckets[key := Counted(buckets[key], (attempt, row.1))];
    r := Table(order, buckets);
    assert before + [] == before;
  }

  lemma CountedInto(b: Bucket, before: seq<Attempt>, attempt: Attempt, row: Row)
    requires Find(attempt.breakdown, row.0) == Some(row.1) && NeedsAttention(row.1)
    requires Describes(b, row.0, AlertsOf(before, row.0))
             || (b == EMPTY.(key := row.0) && AlertsOf(before, row.0) == [])
    ensures Describes(Counted(b, (attempt, row.1)), row.0, AlertsOf(before + [attempt], row.0))
    ensures AlertsOf(before + [attempt], row.0) != []
  {
    hide NeedsAttention, Counted;
    assert (before + [attempt])[..|before|] == before;
    if b == EMPTY.(key := row.0) && AlertsOf(before, row.0) == [] {
      assert Describes(b, row.0, []);
    }
    CountedDescribes(b, row.0, AlertsOf(before, row.0), (attempt, row.1));
  }

  /** A key that does not alert in the attempt is already accounted for. */
  lemma AllAccounted(t: Table, before: seq<Attempt>, attempt: Attempt, also: set<string>)
    requires Accounts(t, before, [attempt], also)
    requires forall k | Find(attempt.breakdown, k).Some? && NeedsAttention(Find(attempt.breakdown, k).value) ::
               k in also
    ensures Accounts(t, before + [attempt], [], {})
  {
    hide Describes, NeedsAttention, Find;
    assert (before + [attempt])[..|before|] == before;
    assert before + [attempt] + [] == before + [attempt] && before + [] == before;
    forall k ensures AlertsOf(before + (if k in also then [attempt] else []), k) == AlertsOf(before + [attempt], k) {
    }
  }

  lemma NothingYet()
    ensures Accounts(Table([], map[]), [], [], {})
  {
  }

  lemma StartAttempt(t: Table, before: seq<Attempt>, attempt: Attempt)
    requires Accounts(t, before, [], {})
    ensures Accounts(t, before, [attempt], {})
  {
    hide Describes, AlertsOf;
  }

  lemma KeyNotYet(rows: seq<Row>, j: nat)
    requires Keyed(rows) && j < |rows|
    ensures rows[j].0 !in KeysOf(rows[..j])
    ensures KeysOf(rows[..j + 1]) == KeysOf(rows[..j]) + {rows[j].0}
  {
    assert rows[..j + 1] == rows[..j] + [rows[j]];
  }

  ghost function KeysOf(rows: seq<Row>): set<string> {
    set row | row in rows :: row.0
  }

  /** Sorts and keeps the first `limit`: nothing that is dropped ranks before anything kept. */
  method RankRows(all: seq<Bucket>, limit: nat) returns (rows: seq<Bucket>)
    requires forall i, j | 0 <= i < j < |all| :: all[i].key != all[j].key
    ensures |rows| <= limit && Sorted(rows, BucketLe)
    ensures forall b | b in rows :: b in all
    ensures forall i, j | 0 <= i < j < |rows| :: rows[i].key != rows[j].key
    ensures forall b | b in all :: b in rows || (|rows| == limit && forall i | 0 <= i < |rows| :: BucketLe(rows[i], b))
  {
    BucketOrder();
    SortSorts(all, BucketLe);
    hide BucketLe;
    var sorted := Sort(all, BucketLe);
    rows := if |sorted| > limit then sorted[..limit] else sorted;
    SortedBuckets(all, sorted);
    KeepFirst(sorted, rows, limit);
  }

  lemma SortedBuckets(all: seq<Bucket>, sorted: seq<Bucket>)
    requires multiset(sorted) == multiset(all)
    requires forall i, j | 0 <= i < j < |all| :: all[i].key != all[j].key
    ensures forall b :: b in sorted <==> b in all
    ensures forall i, j | 0 <= i < j < |sorted| :: sorted[i].key != sorted[j].key
  {
    assert forall b :: b in sorted <==> b in multiset(sorted);
    assert forall b :: b in all <==> b in multiset(all);
    DistinctOnce(all);
    OnceDistinct(sorted);
    forall i, j | 0 <= i < j < |sorted| ensures sorted[i].key != sorted[j].key {
      assert sorted[i] in all && sorted[j] in all && sorted[i] != sorted[j];
    }
  }

  lemma KeepFirst(sorted: seq<Bucket>, rows: seq<Bucket>, limit: nat)
    requires Sorted(sorted, BucketLe) && rows == (if |sorted| > limit then sorted[..limit] else sorted)
    ensures Sorted(rows, BucketLe)
    ensures forall b | b in sorted && b !in rows ::
              |rows| == limit && forall i | 0 <= i < |rows| :: BucketLe(rows[i], b)
  {
    hide BucketLe;
    forall b | b in sorted && b !in rows ensures |rows| == limit && forall i | 0 <= i < |rows| :: BucketLe(rows[i], b) {
      var k :| 0 <= k < |sorted| && sorted[k] == b;
      assert forall m | 0 <= m < |rows| :: rows[m] == sorted[m];
      assert k >= |rows|;
    }
  }

  /** One attempt counted into the dictionary. */
  method CountAttempt(t: Table, attempt: Attempt, ghost before: seq<Attempt>) returns (r: Table)
    requires Accounts(t, before, [], {}) && Keyed(attempt.breakdown)
    ensures Accounts(r, before + [attempt], [], {})
  {
    hide Describes, AlertsOf, Find, NeedsAttention, Keyed, RowLe, Filter, Accounts;
    var selected := SelectBreakdownAlertRows(attempt.breakdown);
    SelectedRows(attempt.breakdown, selected);
    StartAttempt(t, before, attempt);
    r := t;
    assert KeysOf(selected[..0]) == {};
    for j := 0 to |selected|
      invariant Accounts(r, before, [attempt], KeysOf(selected[..j]))
    {
      KeyNotYet(selected, j);
      r := CountRow(r, attempt, selected[j], before, KeysOf(selected[..j]));
    }
    assert selected[..|selected|] == selected;
    assert forall row | row in selected :: row.0 in KeysOf(selected);
    AllAccounted(r, before, attempt, KeysOf(selected));
  }

  /** Every row describes all alerts of its key over the whole history; the rows are the first
      `limit` in rank order. */
  method SummarizeRecurringAlerts(attempts: seq<Attempt>, limit: nat) returns (rows: seq<Bucket>)
    requires forall a | a in attempts :: Keyed(a.breakdown)
    ensures |rows| <= limit && Sorted(rows, BucketLe)
    ensures forall i, j | 0 <= i < j < |rows| ::
              && rows[i].key != rows[j].key
              && rows[i].critical >= rows[j].critical
              && (rows[i].critical == rows[j].critical ==> rows[i].drift >= rows[j].drift)
              && (rows[i].critical == rows[j].critical && rows[i].drift == rows[j].drift ==>
                    rows[i].worst <= rows[j].worst)
    ensures forall i | 0 <= i < |rows| ::
              && AlertsOf(attempts, rows[i].key) != []
              && Describes(rows[i], rows[i].key, AlertsOf(attempts, rows[i].key))
    ensures forall k | AlertsOf(attempts, k) != [] :: Covered(k, attempts, rows, limit)
  {
    hide Describes, AlertsOf, Find, NeedsAttention, Keyed, RowLe, BucketLe, Covered, Filter;
    var t := Table([], map[]);
    NothingYet();
    for i := 0 to |attempts|
      invariant Accounts(t, attempts[..i], [], {})
    {
      t := CountAttempt(t, attempts[i], attempts[..i]);
      assert attempts[..i + 1] == attempts[..i] + [attempts[i]];
    }
    assert attempts[..|attempts|] == attempts;
    assert attempts + [] == attempts;
    var all := seq(|t.order|, i requires 0 <= i < |t.order| && t.order[i] in t.buckets => t.buckets[t.order[i]]);
    InOrder(t, attempts, all);
    rows := RankRows(all, limit);
    forall i, j | 0 <= i < j < |rows|
      ensures rows[i].critical >= rows[j].critical
      ensures rows[i].critical == rows[j].critical ==> rows[i].drift >= rows[j].drift
      ensures rows[i].critical == rows[j].critical && rows[i].drift == rows[j].drift ==> rows[i].worst <= rows[j].worst
    {
      BucketsInOrder(rows[i], rows[j]);
    }
    forall k | AlertsOf(attempts, k) != [] ensures Covered(k, attempts, rows, limit) {
      CoveredBy(k, attempts, rows, limit, t.buckets[k]);
    }
  }

  /** A key has its row, or it ranks behind every row and the limit is used up. */
  ghost predicate Covered(k: string, attempts: seq<Attempt>, rows: seq<Bucket>, limit: nat) {
    || (exists i :: 0 <= i < |rows| && rows[i].key == k)
    || (|rows| == limit
        && exists b :: Describes(b, k, AlertsOf(attempts, k)) && forall i | 0 <= i < |rows| :: BucketLe(rows[i], b))
  }

  lemma CoveredBy(k: string, attempts: seq<Attempt>, rows: seq<Bucket>, limit: nat, b: Bucket)
    requires Describes(b, k, AlertsOf(attempts, k))
    requires b in rows || (|rows| == limit && forall i | 0 <= i < |rows| :: BucketLe(rows[i], b))
    ensures Covered(k, attempts, rows, limit)
  {
    if b in rows {
      var i :| 0 <= i < |rows| && rows[i] == b;
      assert rows[i].key == k;
    }
  }

  lemma InOrder(t: Table, attempts: seq<Attempt>, all: seq<Bucket>)
    requires Accounts(t, attempts, [], {}) && |all| == |t.order|
    requires forall i | 0 <= i < |all| :: t.order[i] in t.buckets && all[i] == t.buckets[t.order[i]]
    ensures forall i, j | 0 <= i < j < |all| :: all[i].key != all[j].key
    ensures forall b | b in all :: AlertsOf(attempts, b.key) != [] && Describes(b, b.key, AlertsOf(attempts, b.key))
    ensures forall k | AlertsOf(attempts, k) != [] :: k in t.buckets && t.buckets[k] in all && t.buckets[k].key == k
                                                  && Describes(t.buckets[k], k, AlertsOf(attempts, k))
  {
    hide AlertsOf;
    assert attempts + [] == attempts;
    assert forall k | k in t.buckets :: t.buckets[k].key == k;
    hide Describes;
    forall k | AlertsOf(attempts, k) != [] ensures k in t.buckets && t.buckets[k] in all {
      assert attempts + (if k in {} then [] else []) == attempts;
      assert k in t.order;
      var i :| 0 <= i < |t.order| && t.order[i] == k;
      assert all[i] == t.buckets[k];
    }
  }
}
