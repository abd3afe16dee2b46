/** The RAM tier: one ring per series, and queries over what the rings hold. */
module HistoryStore {
  import opened Basics
  import Sorting
  import opened HistoryRing

  /** Unix seconds of Go's zero time, and of the zero time in nanoseconds. */
  const ZERO_TIME := -62135596800

  // ---------------------------------------------------------------- the naive answer

  function NonZero(s: seq<Sample>): (r: seq<Sample>)
  {
    if s == [] then []
    else NonZero(s[..|s| - 1]) + (if s[|s| - 1].time != ZERO_TIME then [s[|s| - 1]] else [])
  }

  predicate NotBefore(x: Sample, since: int) { x.time * SECOND >= since }

  /** Keeps the samples that are not before `since` (nanoseconds). */
  function Since(s: seq<Sample>, since: int): seq<Sample> {
    if s == [] then []
    else Since(s[..|s| - 1], since) + (if NotBefore(s[|s| - 1], since) then [s[|s| - 1]] else [])
  }

  function TimeOf(x: Sample): real { x.time as real }

  /** `sort.SliceStable` by time. */
  function StableSort(s: seq<Sample>): seq<Sample> { Sorting.Sort(s, TimeOf) }

  /** The position in n points of the i-th of `limit` evenly spread ones. */
  function Spread(i: nat, n: nat, limit: nat): nat
    requires limit >= 2 && i < limit && n >= 1
  {
    i * (n - 1) / (limit - 1)
  }

  lemma SpreadInRange(i: nat, n: nat, limit: nat)
    requires limit >= 2 && i < limit && n >= 1
    ensures Spread(i, n, limit) < n
  {
    ProductGrows(i, limit - 1, n - 1);
    DivUpper(i * (n - 1), limit - 1, n - 1);
  }

  lemma ProductGrows(a: nat, b: nat, c: nat)
    requires a <= b
    ensures a * c <= b * c
  {
    assert (b - a) * c >= 0;
  }

  lemma DivUpper(a: nat, d: nat, q: nat)
    requires d > 0 && a <= d * q
    ensures a / d <= q
  {
    var k := a / d - q;
    assert a == d * (a / d) + a % d;
    assert d * (a / d) == d * q + d * k;
    MultipleOf(k, d);
  }

  function Downsample(points: seq<Sample>, limit: int): seq<Sample> {
    if limit <= 0 || |points| <= limit then points
    else if limit == 1 then [points[|points| - 1]]
    else seq(limit, i requires 0 <= i < limit => (SpreadInRange(i, |points|, limit); points[Spread(i, |points|, limit)]))
  }

  /** What a query should return: the last points the ring has room for, without zero times, in time
      order, not before `since` (None for the zero time), thinned out to the limit. */
  function Answer(history: seq<Sample>, capacity: nat, since: Option<int>, limit: int): seq<Sample> {
    var sorted := StableSort(NonZero(Suffix(history, capacity)));
    Downsample(if since.Some? then Since(sorted, since.value) else sorted, limit)
  }

  // ---------------------------------------------------------------- what the parts mean

  /** The samples with one time, in their order. */
  function AtTime(s: seq<Sample>, t: int): seq<Sample> {
    if s == [] then []
    else AtTime(s[..|s| - 1], t) + (if s[|s| - 1].time == t then [s[|s| - 1]] else [])
  }

  lemma AtTimeSnoc(s: seq<Sample>, x: Sample, t: int)
    ensures AtTime(s + [x], t) == AtTime(s, t) + (if x.time == t then [x] else [])
  {
    assert (s + [x])[..|s|] == s;
  }

  lemma {:induction false} InsertAtTime(s: seq<Sample>, x: Sample, t: int)
    ensures AtTime(Sorting.Insert(s, x, TimeOf), t) == AtTime(s, t) + (if x.time == t then [x] else [])
  {
    if s == [] || s[|s| - 1].time <= x.time {
      AtTimeSnoc(s, x, t);
    } else {
      var front, last := s[..|s| - 1], s[|s| - 1];
      InsertAtTime(front, x, t);
      AtTimeSnoc(Sorting.Insert(front, x, TimeOf), last, t);
    }
  }

  lemma {:induction false} SortAtTime(s: seq<Sample>, t: int)
    ensures AtTime(StableSort(s), t) == AtTime(s, t)
  {
    if s != [] {
      SortAtTime(s[..|s| - 1], t);
      InsertAtTime(StableSort(s[..|s| - 1]), s[|s| - 1], t);
      assert Front(s) == s[..|s| - 1];
    }
  }

  /** The sort is a stable one: in time order, and samples of the same time keep their order. */
  lemma SortMeans(s: seq<Sample>, t: int)
    ensures Nondecreasing(StableSort(s)) && AtTime(StableSort(s), t) == AtTime(s, t)
    ensures multiset(StableSort(s)) == multiset(s)
  {
    SortAtTime(s, t);
    Sorting.SortSorts(s, TimeOf);
    var r := StableSort(s);
    forall i, j | 0 <= i < j < |r| ensures r[i].time <= r[j].time {
      assert TimeOf(r[i]) <= TimeOf(r[j]);
    }
  }

  lemma {:induction false} AtTimeMember(s: seq<Sample>, i: nat)
    requires i < |s|
    ensures AtTime(s, s[i].time) != []
  {
    if i < |s| - 1 {
      AtTimeMember(s[..|s| - 1], i);
    }
  }

  lemma {:induction false} AtTimeBeyond(s: seq<Sample>, t: int)
    requires Nondecreasing(s) && (s != [] ==> s[|s| - 1].time < t)
    ensures AtTime(s, t) == []
  {
    if s != [] {
      AtTimeBeyond(s[..|s| - 1], t);
    }
  }

  ghost predicate SameAtTimes(r: seq<Sample>, q: seq<Sample>) { forall t :: AtTime(r, t) == AtTime(q, t) }

  lemma AtTimeFronts(r: seq<Sample>, q: seq<Sample>, t: int)
    requires r != [] && q != [] && r[|r| - 1].time == q[|q| - 1].time && SameAtTimes(r, q)
    ensures AtTime(r[..|r| - 1], t) == AtTime(q[..|q| - 1], t) && r[|r| - 1] == q[|q| - 1]
  {
    var a, b, x, y := r[..|r| - 1], q[..|q| - 1], r[|r| - 1], q[|q| - 1];
    var u := x.time;
    assert AtTime(a, u) + [x] == AtTime(r, u) == AtTime(q, u) == AtTime(b, u) + [y];
    assert (AtTime(a, u) + [x])[..|AtTime(a, u)|] == AtTime(a, u);
    assert (AtTime(b, u) + [y])[..|AtTime(b, u)|] == AtTime(b, u);
    assert (AtTime(a, u) + [x])[|AtTime(a, u)|] == x && (AtTime(b, u) + [y])[|AtTime(b, u)|] == y;
    assert AtTime(a, u) == AtTime(b, u);
    if t != u {
      assert AtTime(r, t) == AtTime(q, t);
      assert AtTime(a, t) + [] == AtTime(a, t) && AtTime(b, t) + [] == AtTime(b, t);
    }
  }

  /** There is only one stable sort: time order and the order within each time determine the result. */
  lemma {:induction false} SortUnique(r: seq<Sample>, q: seq<Sample>)
    requires Nondecreasing(r) && Nondecreasing(q) && SameAtTimes(r, q)
    ensures r == q
  {
    SameEnds(r, q);
    if r != [] {
      var a, b := r[..|r| - 1], q[..|q| - 1];
      FrontsAlike(r, q);
      SortUnique(a, b);
      assert r == a + [r[|r| - 1]] && q == b + [q[|q| - 1]];
    }
  }

  lemma FrontsAlike(r: seq<Sample>, q: seq<Sample>)
    requires r != [] && q != [] && r[|r| - 1].time == q[|q| - 1].time && SameAtTimes(r, q)
    ensures SameAtTimes(r[..|r| - 1], q[..|q| - 1]) && r[|r| - 1] == q[|q| - 1]
  {
    var a, b := r[..|r| - 1], q[..|q| - 1];
    AtTimeFronts(r, q, 0);
    forall t ensures AtTime(a, t) == AtTime(b, t) {
      AtTimeFronts(r, q, t);
    }
  }

  lemma SameEnds(r: seq<Sample>, q: seq<Sample>)
    requires Nondecreasing(r) && Nondecreasing(q) && SameAtTimes(r, q)
    ensures r == [] <==> q == []
    ensures r != [] && q != [] ==> r[|r| - 1].time == q[|q| - 1].time
  {
    if q != [] {
      EndsNoEarlier(r, q);
    }
    if r != [] {
      EndsNoEarlier(q, r);
    }
  }

  lemma EndsNoEarlier(r: seq<Sample>, q: seq<Sample>)
    requires Nondecreasing(r) && SameAtTimes(r, q) && q != []
    ensures r != [] && r[|r| - 1].time >= q[|q| - 1].time
  {
    var t := q[|q| - 1].time;
    AtTimeMember(q, |q| - 1);
    assert AtTime(r, t) == AtTime(q, t);
    if r == [] || r[|r| - 1].time < t {
      AtTimeBeyond(r, t);
    }
  }

  /** Sorting what is already in order changes nothing. */
  lemma {:induction false} SortOrdered(s: seq<Sample>)
    requires Nondecreasing(s)
    ensures StableSort(s) == s
  {
    if s != [] {
      var front, last := Front(s), Last(s);
      SortOrdered(front);
      assert front != [] ==> TimeOf(Last(front)) <= TimeOf(last) && s == front + [last];
      assert Sorting.Insert(front, last, TimeOf) == s;
      hide Sorting.Insert, Nondecreasing;
    }
  }

  lemma {:induction false} NonZeroOrdered(s: seq<Sample>)
    requires Nondecreasing(s)
    ensures Nondecreasing(NonZero(s)) && forall y :: y in NonZero(s) ==> y in s
  {
    if s != [] {
      var front, last := s[..|s| - 1], s[|s| - 1];
      NonZeroOrdered(front);
      var kept := NonZero(front);
      assert kept != [] ==> kept[|kept| - 1] in kept && kept[|kept| - 1] in front;
      assert forall y :: y in front ==> y.time <= last.time;
      NondecreasingSnoc(kept, last);
    }
  }

  /** In time order, the samples not before a time are a suffix. */
  lemma {:induction false} SinceIsSuffix(s: seq<Sample>, since: int, start: nat)
    requires start <= |s|
    requires forall i :: 0 <= i < start ==> !NotBefore(s[i], since)
    requires forall i :: start <= i < |s| ==> NotBefore(s[i], since)
    ensures Since(s, since) == s[start..]
  {
    hide NotBefore;
    if s != [] {
      var front, last := s[..|s| - 1], s[|s| - 1];
      forall i | 0 <= i < |front| ensures NotBefore(front[i], since) == NotBefore(s[i], since) {
        assert front[i] == s[i];
      }
      if start == |s| {
        SinceIsSuffix(front, since, |front|);
      } else {
        SinceIsSuffix(front, since, start);
        assert s[start..] == front[start..] + [last];
      }
    }
  }

  /** Adding at least the divisor raises a quotient. */
  lemma DivStep(a: nat, step: nat, d: nat)
    requires 0 < d <= step
    ensures a / d < (a + step) / d
  {
    var b := a + step;
    var k := b / d - a / d;
    assert a == d * (a / d) + a % d && b == d * (b / d) + b % d;
    assert d * (b / d) - d * (a / d) == d * k;
    assert d * k == step + a % d - b % d;
    MultipleOf(k, d);
    assert k <= 0 ==> d * k <= 0;
  }

  lemma SpreadEnds(n: nat, limit: nat)
    requires 2 <= limit < n
    ensures Spread(0, n, limit) == 0 && Spread(limit - 1, n, limit) == n - 1
  {
    var d := limit - 1;
    assert (limit - 1) * (n - 1) == (n - 1) * d;
    ModOf((n - 1) * d, d, n - 1, 0);
  }

  /** Thinning out keeps both end points and takes the points in strictly increasing position. */
  lemma SpreadMeans(n: nat, limit: nat, i: nat)
    requires 2 <= limit < n && i < limit
    ensures Spread(0, n, limit) == 0 && Spread(limit - 1, n, limit) == n - 1
    ensures i + 1 < limit ==> Spread(i, n, limit) < Spread(i + 1, n, limit) < n
  {
    SpreadEnds(n, limit);
    if i + 1 < limit {
      SpreadInRange(i + 1, n, limit);
      assert (i + 1) * (n - 1) == i * (n - 1) + (n - 1);
      DivStep(i * (n - 1), n - 1, limit - 1);
    }
  }

  // ---------------------------------------------------------------- what an answer holds

  lemma {:induction false} NonZeroAtTime(s: seq<Sample>, t: int)
    ensures AtTime(NonZero(s), t) == if t == -62_135_596_800 then [] else AtTime(s, t)
  {
    if s != [] {
      var front, last := s[..|s| - 1], s[|s| - 1];
      NonZeroAtTime(front, t);
      AtTimeSnoc(NonZero(front), last, t);
      assert NonZero(front) + [] == NonZero(front) && AtTime(front, t) + [] == AtTime(front, t);
    }
  }

  lemma {:induction false} SinceAtTime(s: seq<Sample>, since: int, t: int)
    ensures AtTime(Since(s, since), t) == if t * 1_000_000_000 < since then [] else AtTime(s, t)
  {
    if s != [] {
      var front, last := s[..|s| - 1], s[|s| - 1];
      SinceAtTime(front, since, t);
      AtTimeSnoc(Since(front, since), last, t);
      assert Since(front, since) + [] == Since(front, since) && AtTime(front, t) + [] == AtTime(front, t);
    }
  }

  lemma {:induction false} SinceOrdered(s: seq<Sample>, since: int)
    requires Nondecreasing(s)
    ensures Nondecreasing(Since(s, since)) && forall y :: y in Since(s, since) ==> y in s
  {
    if s != [] {
      var front, last := s[..|s| - 1], s[|s| - 1];
      SinceOrdered(front, since);
      var kept := Since(front, since);
      assert kept != [] ==> kept[|kept| - 1] in kept && kept[|kept| - 1] in front;
      assert forall y :: y in front ==> y.time <= last.time;
      NondecreasingSnoc(kept, last);
    }
  }

  /** An unlimited answer is in time order and, of every time, holds exactly the samples with that time among the last
      `capacity` appended, in their order; none for Go's zero time and none before `since`. That determines it. */
  lemma QueryMeans(history: seq<Sample>, capacity: nat, since: Option<int>, t: int)
    ensures var r := Answer(history, capacity, since, 0);
            && Nondecreasing(r)
            && AtTime(r, t) == if t == -62_135_596_800 || (since.Some? && t * 1_000_000_000 < since.value) then []
                               else AtTime(if |history| <= capacity then history else history[|history| - capacity..], t)
  {
    var kept := Suffix(history, capacity);
    NonZeroAtTime(kept, t);
    SortMeans(NonZero(kept), t);
    if since.Some? {
      SinceAtTime(StableSort(NonZero(kept)), since.value, t);
      SinceOrdered(StableSort(NonZero(kept)), since.value);
    }
    hide StableSort, NonZero, AtTime, Since, Nondecreasing;
  }

  /** A limit keeps points of the unlimited answer: all when they fit, the last one for a limit of one, and otherwise
      as many as the limit at even distances from the first to the last. */
  lemma LimitMeans(history: seq<Sample>, capacity: nat, since: Option<int>, limit: int, i: nat)
    requires i < limit
    ensures var all, r := Answer(history, capacity, since, 0), Answer(history, capacity, since, limit);
            if |all| <= limit then r == all
            else if limit == 1 then r == [all[|all| - 1]]
            else |r| == limit && 0 <= i * (|all| - 1) / (limit - 1) < |all| && r[i] == all[i * (|all| - 1) / (limit - 1)]
  {
    var all := Answer(history, capacity, since, 0);
    hide StableSort, NonZero, Since, Suffix;
    if 1 < limit < |all| {
      SpreadInRange(i, |all|, limit);
    }
  }

  lemma NoLimit(history: seq<Sample>, capacity: nat, since: Option<int>, limit: int)
    requires limit <= 0
    ensures Answer(history, capacity, since, limit) == Answer(history, capacity, since, 0)
  {
  }

  // ---------------------------------------------------------------- the store

  method FirstSince(points: seq<Sample>, since: int) returns (start: nat)
    requires Nondecreasing(points)
    ensures start <= |points|
    ensures forall i :: 0 <= i < start ==> !NotBefore(points[i], since)
    ensures forall i :: start <= i < |points| ==> NotBefore(points[i], since)
  {
    var low, high := 0, |points|;
    while low < high
      invariant 0 <= low <= high <= |points|
      invariant forall i :: 0 <= i < low ==> !NotBefore(points[i], since)
      invariant forall i :: high <= i < |points| ==> NotBefore(points[i], since)
    {
      var mid := (low + high) / 2;
      if !NotBefore(points[mid], since) {
        low := mid + 1;
      } else {
        high := mid;
      }
    }
    start := low;
  }

  method DownsamplePoints(points: seq<Sample>, limit: int) returns (result: seq<Sample>)
    ensures result == Downsample(points, limit)
  {
    if limit <= 0 || |points| <= limit {
      return points;
    }
    if limit == 1 {
      return [points[|points| - 1]];
    }
    var picked := new Sample[limit](_ => points[0]);
    for i := 0 to limit
      invariant forall j :: 0 <= j < i ==> Spread(j, |points|, limit) < |points| && picked[j] == points[Spread(j, |points|, limit)]
    {
      SpreadInRange(i, |points|, limit);
      var index := i * (|points| - 1) / (limit - 1);
      picked[i] := points[index];
    }
    result := picked[..];
  }

  /** The samples without those that have no time. */
  method DropZero(all: seq<Sample>) returns (valid: seq<Sample>)
    ensures valid == NonZero(all)
  {
    valid := [];
    for i := 0 to |all|
      invariant valid == NonZero(all[..i])
    {
      assert all[..i + 1][..i] == all[..i];
      if all[i].time != ZERO_TIME {
        valid := valid + [all[i]];
      }
    }
    assert all[..|all|] == all;
  }

  class Store {
    const series: map<string, Ring>

    ghost function Parts(): set<object>
      reads this
    {
      {this} + (set n | n in series :: series[n] as object) + (set n | n in series :: series[n].times as object)
      + (set n | n in series :: series[n].values as object)
    }

    /** Every ring is intact and shares nothing with the others. */
    ghost predicate Valid()
      reads this, Parts()
    {
      && (forall n :: n in series ==> series[n].Valid())
      && (forall m, n :: m in series && n in series && m != n ==>
            series[m] != series[n] && series[m].times != series[n].times && series[m].values != series[n].values)
    }

    constructor (series: map<string, Ring>)
      requires forall n :: n in series ==> series[n].Valid()
      requires forall m, n :: m in series && n in series && m != n ==>
                 series[m] != series[n] && series[m].times != series[n].times && series[m].values != series[n].values
      ensures this.series == series && Valid()
    {
      this.series := series;
    }

    method Append(name: string, point: Point) returns (known: bool)
      requires Valid()
      modifies Parts() - {this}
      ensures Valid() && known == (name in series)
      ensures known ==> series[name].history == old(series[name].history) + [Stored(point)]
      ensures forall n :: n in series && n != name ==> series[n].history == old(series[n].history)
    {
      if name !in series {
        return false;
      }
      series[name].Append(point);
      known := true;
    }

    method Query(name: string, since: Option<int>, limit: int) returns (result: Option<seq<Sample>>)
      requires Valid()
      ensures result == if name in series
                        then Some(Answer(series[name].history, series[name].Capacity(), since, limit)) else None
    {
      if name !in series {
        return None;
      }
      var ring := series[name];
      var all := ring.Snapshot();
      var ordered := ring.ordered;
      var valid := DropZero(all);
      if !ordered {
        SortMeans(valid, 0);
        valid := StableSort(valid);
      } else {
        assert Nondecreasing(all);
        NonZeroOrdered(all);
        SortOrdered(valid);
      }
      var start := 0;
      if since.Some? {
        start := FirstSince(valid, since.value);
        SinceIsSuffix(valid, since.value, start);
      }
      var points := DownsamplePoints(valid[start..], limit);
      result := Some(points);
    }
  }
}
