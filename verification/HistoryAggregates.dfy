/** Aggregates of the persistent tiers: what a row of samples, or a row of rows, stands for. */
module HistoryAggregates {
  import opened Basics
  import Stats = WeightedStats

  /** The running aggregate as a value. */
  datatype Agg = Agg(min: real, max: real, sum: real, count: int)

  /** A row of the minute or of the quarter table. */
  datatype Row = Row(min: real, avg: real, max: real, samples: int)

  function Min(a: real, b: real): real { if a <= b then a else b }

  function Max(a: real, b: real): real { if a >= b then a else b }

  const EMPTY := Agg(0.0, 0.0, 0.0, 0)

  function Added(a: Agg, value: real, samples: int): Agg {
    Agg(if a.count == 0 then value else Min(a.min, value), if a.count == 0 then value else Max(a.max, value),
        a.sum + value * samples as real, a.count + samples)
  }

  function AddedRow(a: Agg, row: Row): Agg {
    Agg(if a.count == 0 then row.min else Min(a.min, row.min), if a.count == 0 then row.max else Max(a.max, row.max),
        a.sum + row.avg * row.samples as real, a.count + row.samples)
  }

  function RowOf(a: Agg): Row
    requires a.count > 0
  {
    Row(a.min, a.sum / a.count as real, a.max, a.count)
  }

  class Aggregate {
    var min: real
    var max: real
    var sum: real
    var count: int

    function Value(): Agg
      reads this
    {
      Agg(min, max, sum, count)
    }

    constructor ()
      ensures Value() == EMPTY
    {
      min, max, sum, count := 0.0, 0.0, 0.0, 0;
    }

    method Add(value: real, samples: int)
      modifies this
      ensures Value() == Added(old(Value()), value, samples)
    {
      if count == 0 {
        min, max := value, value;
      } else {
        min := Min(min, value);
        max := Max(max, value);
      }
      sum := sum + value * samples as real;
      count := count + samples;
    }

    method AddRange(minimum: real, average: real, maximum: real, samples: int)
      modifies this
      ensures Value() == AddedRow(old(Value()), Row(minimum, average, maximum, samples))
    {
      if count == 0 {
        min, max := minimum, maximum;
      } else {
        min := Min(min, minimum);
        max := Max(max, maximum);
      }
      sum := sum + average * samples as real;
      count := count + samples;
    }
  }

  // ---------------------------------------------------------------- what a row stands for

  function OfValues(values: seq<real>): Agg {
    if values == [] then EMPTY else Added(OfValues(Front(values)), Last(values), 1)
  }

  function OfRows(rows: seq<Row>): Agg {
    if rows == [] then EMPTY else AddedRow(OfRows(Front(rows)), Last(rows))
  }

  predicate Least(x: real, values: seq<real>) { x in values && forall v :: v in values ==> x <= v }

  predicate Greatest(x: real, values: seq<real>) { x in values && forall v :: v in values ==> v <= x }

  /** A row gives the least, the mean, the greatest and the number of some values. */
  predicate Exact(row: Row, values: seq<real>) {
    && values != []
    && row.samples == |values|
    && row.avg == Stats.Sum(values) / |values| as real
    && Least(row.min, values) && Greatest(row.max, values)
  }

  function Minima(rows: seq<Row>): seq<real> { seq(|rows|, i requires 0 <= i < |rows| => rows[i].min) }

  function Maxima(rows: seq<Row>): seq<real> { seq(|rows|, i requires 0 <= i < |rows| => rows[i].max) }

  function Samples(rows: seq<Row>): int {
    if rows == [] then 0 else Samples(Front(rows)) + Last(rows).samples
  }

  function Mass(row: Row): real { row.avg * row.samples as real }

  function Weighted(rows: seq<Row>): real {
    if rows == [] then 0.0
    else Weighted(Front(rows)) + Mass(Last(rows))
  }

  predicate Filled(rows: seq<Row>) { forall i :: 0 <= i < |rows| ==> rows[i].samples > 0 }

  /** A row gives the least minimum, the mean weighted by sample counts, the greatest maximum and the total
      sample count of some rows. */
  predicate Merges(row: Row, rows: seq<Row>) {
    && rows != [] && Filled(rows)
    && row.samples == Samples(rows) && row.samples > 0
    && row.avg == Weighted(rows) / Samples(rows) as real
    && Least(row.min, Minima(rows)) && Greatest(row.max, Maxima(rows))
  }

  lemma {:induction false} SamplesPositive(rows: seq<Row>)
    requires Filled(rows)
    ensures Samples(rows) >= 0 && (rows != [] ==> Samples(rows) > 0)
  {
    if rows != [] {
      SamplesPositive(Front(rows));
    }
  }

  lemma LeastSnoc(x: real, values: seq<real>, v: real)
    requires Least(x, values)
    ensures Least(Min(x, v), values + [v])
  {
    var all := values + [v];
    assert forall u :: u in all <==> u in values || u == v;
  }

  lemma GreatestSnoc(x: real, values: seq<real>, v: real)
    requires Greatest(x, values)
    ensures Greatest(Max(x, v), values + [v])
  {
    var all := values + [v];
    assert forall u :: u in all <==> u in values || u == v;
  }

  lemma {:induction false} OfValuesParts(values: seq<real>)
    ensures OfValues(values).count == |values| && OfValues(values).sum == Stats.Sum(values)
    ensures values != [] ==> Least(OfValues(values).min, values) && Greatest(OfValues(values).max, values)
  {
    if values != [] {
      var front, last := Front(values), Last(values);
      OfValuesParts(front);
      assert values == front + [last];
      if front != [] {
        LeastSnoc(OfValues(front).min, front, last);
        GreatestSnoc(OfValues(front).max, front, last);
      }
    }
  }

  /** Adding values one at a time gives their exact row. */
  lemma OfValuesExact(values: seq<real>)
    requires values != []
    ensures OfValues(values).count > 0 && Exact(RowOf(OfValues(values)), values)
  {
    OfValuesParts(values);
  }

  lemma {:induction false} OfRowsParts(rows: seq<Row>)
    requires Filled(rows)
    ensures OfRows(rows).count == Samples(rows) && OfRows(rows).sum == Weighted(rows)
    ensures rows != [] ==> Least(OfRows(rows).min, Minima(rows)) && Greatest(OfRows(rows).max, Maxima(rows))
  {
    if rows != [] {
      var front, last := Front(rows), Last(rows);
      OfRowsParts(front);
      SamplesPositive(front);
      assert Minima(rows) == Minima(front) + [last.min] && Maxima(rows) == Maxima(front) + [last.max];
      if front != [] {
        LeastSnoc(OfRows(front).min, Minima(front), last.min);
        GreatestSnoc(OfRows(front).max, Maxima(front), last.max);
      }
    }
  }

  /** Adding rows one at a time gives their merged row. */
  lemma OfRowsMerges(rows: seq<Row>)
    requires rows != [] && Filled(rows)
    ensures OfRows(rows).count > 0 && Merges(RowOf(OfRows(rows)), rows)
  {
    SamplesPositive(rows);
    OfRowsParts(rows);
  }

  /** What a row stands for determines it. */
  lemma ExactUnique(a: Row, b: Row, values: seq<real>)
    requires Exact(a, values) && Exact(b, values)
    ensures a == b
  {
  }

  // ---------------------------------------------------------------- merging is exact

  function Flat(parts: seq<seq<real>>): seq<real> {
    if parts == [] then [] else Flat(Front(parts)) + Last(parts)
  }

  predicate AllExact(rows: seq<Row>, parts: seq<seq<real>>) {
    |rows| == |parts| && forall i :: 0 <= i < |rows| ==> Exact(rows[i], parts[i])
  }

  lemma ExactSum(row: Row, values: seq<real>)
    requires Exact(row, values)
    ensures Mass(row) == Stats.Sum(values)
  {
    var n, sum := |values| as real, Stats.Sum(values);
    assert n > 0.0;
    assert sum / n * n == sum;
  }

  lemma AllExactFront(rows: seq<Row>, parts: seq<seq<real>>)
    requires AllExact(rows, parts)
    ensures |rows| == |parts|
    ensures rows != [] ==> AllExact(Front(rows), Front(parts)) && Exact(Last(rows), Last(parts))
    ensures rows != [] ==> Last(rows).samples == |Last(parts)|
  {
    hide Stats.Sum;
  }

  lemma {:induction false} FlatSums(rows: seq<Row>, parts: seq<seq<real>>)
    requires AllExact(rows, parts)
    ensures Samples(rows) == |Flat(parts)| && Weighted(rows) == Stats.Sum(Flat(parts))
  {
    hide AllExact, Exact, Mass;
    AllExactFront(rows, parts);
    if rows != [] {
      FlatSums(Front(rows), Front(parts));
      ExactSum(Last(rows), Last(parts));
      Stats.SumConcat(Flat(Front(parts)), Last(parts));
    }
  }

  lemma {:induction false} FlatMembers(parts: seq<seq<real>>, i: nat, v: real)
    requires i < |parts| && v in parts[i]
    ensures v in Flat(parts)
  {
    if i < |parts| - 1 {
      FlatMembers(Front(parts), i, v);
    }
  }

  lemma {:induction false} FlatOrigin(parts: seq<seq<real>>, v: real)
    requires v in Flat(parts)
    ensures exists i :: 0 <= i < |parts| && v in parts[i]
  {
    if v in Flat(Front(parts)) {
      FlatOrigin(Front(parts), v);
      var i :| 0 <= i < |parts| - 1 && v in Front(parts)[i];
      assert v in parts[i];
    } else {
      assert v in parts[|parts| - 1];
    }
  }

  lemma FlatLeast(x: real, rows: seq<Row>, parts: seq<seq<real>>)
    requires AllExact(rows, parts) && Least(x, Minima(rows))
    ensures Least(x, Flat(parts))
  {
    var i :| 0 <= i < |rows| && Minima(rows)[i] == x;
    assert Least(rows[i].min, parts[i]);
    FlatMembers(parts, i, x);
    forall v | v in Flat(parts) ensures x <= v {
      FlatOrigin(parts, v);
      var j :| 0 <= j < |parts| && v in parts[j];
      assert Least(rows[j].min, parts[j]) && Minima(rows)[j] in Minima(rows);
    }
  }

  lemma FlatGreatest(x: real, rows: seq<Row>, parts: seq<seq<real>>)
    requires AllExact(rows, parts) && Greatest(x, Maxima(rows))
    ensures Greatest(x, Flat(parts))
  {
    var i :| 0 <= i < |rows| && Maxima(rows)[i] == x;
    assert Greatest(rows[i].max, parts[i]);
    FlatMembers(parts, i, x);
    forall v | v in Flat(parts) ensures v <= x {
      FlatOrigin(parts, v);
      var j :| 0 <= j < |parts| && v in parts[j];
      assert Greatest(rows[j].max, parts[j]) && Maxima(rows)[j] in Maxima(rows);
    }
  }

  /** Merging exact rows gives the exact row of all the values, as if they had been added directly. */
  lemma MergingIsExact(row: Row, rows: seq<Row>, parts: seq<seq<real>>)
    requires Merges(row, rows) && AllExact(rows, parts)
    ensures Exact(row, Flat(parts)) && OfValues(Flat(parts)).count > 0 && row == RowOf(OfValues(Flat(parts)))
  {
    FlatSums(rows, parts);
    FlatLeast(row.min, rows, parts);
    FlatGreatest(row.max, rows, parts);
    OfValuesExact(Flat(parts));
  }

  // ---------------------------------------------------------------- the mean lies between

  predicate Sane(row: Row) { row.samples > 0 && row.min <= row.avg <= row.max }

  function Times(x: real, n: int): real { x * n as real }

  lemma TimesAdd(x: real, m: int, n: int)
    ensures Times(x, m + n) == Times(x, m) + Times(x, n)
  {
  }

  lemma LessProduct(a: real, b: real, m: real)
    requires a < b && m > 0.0
    ensures a * m < b * m
  {
    assert (b - a) * m > 0.0;
  }

  lemma TimesBetween(x: real, n: int, low: real, high: real)
    requires n > 0 && low <= x <= high
    ensures Times(low, n) <= Times(x, n) <= Times(high, n)
  {
    if low < x {
      LessProduct(low, x, n as real);
    }
    if x < high {
      LessProduct(x, high, n as real);
    }
  }

  lemma QuotientBetween(sum: real, n: int, low: real, high: real)
    requires n > 0 && Times(low, n) <= sum <= Times(high, n)
    ensures low <= sum / n as real <= high
  {
    var m := n as real;
    var q := sum / m;
    assert q * m == sum;
    if q < low {
      LessProduct(q, low, m);
    }
    if q > high {
      LessProduct(high, q, m);
    }
  }

  lemma {:induction false} SumBetween(values: seq<real>, low: real, high: real)
    requires forall i :: 0 <= i < |values| ==> low <= values[i] <= high
    ensures Times(low, |values|) <= Stats.Sum(values) <= Times(high, |values|)
  {
    if values != [] {
      SumBetween(Front(values), low, high);
      TimesAdd(low, |values| - 1, 1);
      TimesAdd(high, |values| - 1, 1);
      assert low <= values[|values| - 1] <= high && Times(low, 1) == low && Times(high, 1) == high;
      hide Times;
    }
  }

  lemma ExactSane(row: Row, values: seq<real>)
    requires Exact(row, values)
    ensures Sane(row)
  {
    forall i | 0 <= i < |values| ensures row.min <= values[i] <= row.max {
      assert values[i] in values;
    }
    SumBetween(values, row.min, row.max);
    QuotientBetween(Stats.Sum(values), |values|, row.min, row.max);
  }

  lemma {:induction false} WeightedBetween(rows: seq<Row>, low: real, high: real)
    requires forall i :: 0 <= i < |rows| ==> Sane(rows[i]) && low <= rows[i].min && rows[i].max <= high
    ensures Times(low, Samples(rows)) <= Weighted(rows) <= Times(high, Samples(rows))
  {
    if rows != [] {
      var last := Last(rows);
      WeightedBetween(Front(rows), low, high);
      assert Sane(last) && low <= last.avg <= high;
      TimesBetween(last.avg, last.samples, low, high);
      assert Times(last.avg, last.samples) == Mass(last);
      hide Times, Mass;
      TimesAdd(low, Samples(Front(rows)), last.samples);
      TimesAdd(high, Samples(Front(rows)), last.samples);
    }
  }

  lemma MergedSane(row: Row, rows: seq<Row>)
    requires Merges(row, rows) && forall i :: 0 <= i < |rows| ==> Sane(rows[i])
    ensures Sane(row)
  {
    forall i | 0 <= i < |rows| ensures row.min <= rows[i].min && rows[i].max <= row.max {
      assert Minima(rows)[i] in Minima(rows) && Maxima(rows)[i] in Maxima(rows);
    }
    WeightedBetween(rows, row.min, row.max);
    QuotientBetween(Weighted(rows), Samples(rows), row.min, row.max);
  }
}
