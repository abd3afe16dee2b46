/** Weighted samples: mean, nearest-rank percentile and latency distribution, and the battery load that is
    a weighted mean over a recent window. Values are reals. */
module WeightedStats {
  import opened Basics
  import Sorting

  datatype Weighted = Weighted(value: real, weight: int)

  predicate Positive(s: seq<Weighted>) { forall i :: 0 <= i < |s| ==> s[i].weight > 0 }

  function TotalWeight(s: seq<Weighted>): int {
    if s == [] then 0 else TotalWeight(Front(s)) + Last(s).weight
  }

  function Repeat(x: real, n: nat): seq<real> { seq(n, _ => x) }

  /** The list in which each value is repeated as often as its weight says. */
  function Expand(s: seq<Weighted>): seq<real>
    requires Positive(s)
  {
    if s == [] then [] else Expand(Front(s)) + Repeat(Last(s).value, Last(s).weight)
  }

  function Sum(s: seq<real>): real { if s == [] then 0.0 else Sum(Front(s)) + Last(s) }

  lemma {:induction false} ExpandLength(s: seq<Weighted>)
    requires Positive(s)
    ensures |Expand(s)| == TotalWeight(s) && (s != [] ==> TotalWeight(s) > 0)
  {
    if s != [] {
      ExpandLength(Front(s));
    }
  }

  lemma {:induction false} SumConcat(a: seq<real>, b: seq<real>)
    ensures Sum(a + b) == Sum(a) + Sum(b)
  {
    if b == [] {
      assert a + b == a;
    } else {
      SumConcat(a, Front(b));
      assert Front(a + b) == a + Front(b);
    }
  }

  lemma {:induction false} SumRepeat(x: real, n: nat)
    ensures Sum(Repeat(x, n)) == x * n as real
  {
    if n > 0 {
      SumRepeat(x, n - 1);
      assert Front(Repeat(x, n)) == Repeat(x, n - 1);
    }
  }

  // ---------------------------------------------------------------- mean

  function WeightedSum(s: seq<Weighted>): real {
    if s == [] then 0.0 else WeightedSum(Front(s)) + Last(s).value * Last(s).weight as real
  }

  /** The weighted mean is the plain mean of the expanded list. */
  method Mean(s: seq<Weighted>) returns (mean: real)
    requires s != [] && Positive(s)
    ensures |Expand(s)| > 0 && mean == Sum(Expand(s)) / |Expand(s)| as real
  {
    var sum, count := 0.0, 0;
    for i := 0 to |s|
      invariant sum == WeightedSum(s[..i]) && count == TotalWeight(s[..i])
    {
      assert Front(s[..i + 1]) == s[..i];
      sum := sum + s[i].value * s[i].weight as real;
      count := count + s[i].weight;
    }
    assert s[..|s|] == s;
    ExpandLength(s);
    ExpandSum(s);
    mean := sum / count as real;
  }

  lemma {:induction false} ExpandSum(s: seq<Weighted>)
    requires Positive(s)
    ensures WeightedSum(s) == Sum(Expand(s))
  {
    if s != [] {
      ExpandSum(Front(s));
      SumRepeat(Last(s).value, Last(s).weight);
      assert Expand(s) == Expand(Front(s)) + Repeat(Last(s).value, Last(s).weight);
      SumConcat(Expand(Front(s)), Repeat(Last(s).value, Last(s).weight));
    }
  }

  // ---------------------------------------------------------------- percentile

  predicate ByValue(s: seq<Weighted>) { forall i, j :: 0 <= i < j < |s| ==> s[i].value <= s[j].value }

  predicate InOrder(s: seq<real>) { forall i, j :: 0 <= i < j < |s| ==> s[i] <= s[j] }

  function ValueOf(x: Weighted): real { x.value }

  function Sorted(s: seq<Weighted>): seq<Weighted> { Sorting.Sort(s, ValueOf) }

  lemma SortedMeans(s: seq<Weighted>)
    ensures ByValue(Sorted(s)) && multiset(Sorted(s)) == multiset(s)
  {
    Sorting.SortSorts(s, ValueOf);
    var r := Sorted(s);
    forall i, j | 0 <= i < j < |r| ensures r[i].value <= r[j].value {
      assert ValueOf(r[i]) <= ValueOf(r[j]);
    }
  }

  /** `sort.Slice` by value: nothing is promised about the order of equal values. */
  method SortByValue(s: seq<Weighted>) returns (r: seq<Weighted>)
    ensures ByValue(r) && multiset(r) == multiset(s)
  {
    SortedMeans(s);
    r := Sorted(s);
  }

  lemma {:induction false} ExpandMembers(s: seq<Weighted>, i: nat)
    requires Positive(s) && i < |Expand(s)|
    ensures exists k :: 0 <= k < |s| && Expand(s)[i] == s[k].value
  {
    if i < |Expand(Front(s))| {
      ExpandMembers(Front(s), i);
      var k :| 0 <= k < |s| - 1 && Expand(Front(s))[i] == Front(s)[k].value;
      assert s[k] == Front(s)[k];
    } else {
      assert Expand(s)[i] == s[|s| - 1].value;
    }
  }

  /** Expanding a list sorted by value gives the sorted list of repeated values. */
  lemma {:induction false} ExpandOrdered(s: seq<Weighted>)
    requires Positive(s) && ByValue(s)
    ensures InOrder(Expand(s))
  {
    if s != [] {
      ExpandOrdered(Front(s));
      forall i | 0 <= i < |Expand(Front(s))| ensures Expand(Front(s))[i] <= Last(s).value {
        ExpandMembers(Front(s), i);
      }
    }
  }

  /** How often a value occurs, by weight. */
  function WeightOf(s: seq<Weighted>, x: real): int {
    if s == [] then 0 else WeightOf(Front(s), x) + (if Last(s).value == x then Last(s).weight else 0)
  }

  lemma RepeatCount(x: real, n: nat, y: real)
    ensures multiset(Repeat(x, n))[y] == if x == y then n else 0
  {
    if n > 0 {
      RepeatCount(x, n - 1, y);
      assert Repeat(x, n) == Repeat(x, n - 1) + [x];
    }
  }

  lemma {:induction false} ExpandCount(s: seq<Weighted>, x: real)
    requires Positive(s)
    ensures multiset(Expand(s))[x] == WeightOf(s, x)
  {
    if s != [] {
      ExpandCount(Front(s), x);
      RepeatCount(Last(s).value, Last(s).weight, x);
    }
  }

  lemma {:induction false} WeightOfRemove(s: seq<Weighted>, k: nat, y: real)
    requires k < |s|
    ensures WeightOf(s, y) == WeightOf(s[..k] + s[k + 1..], y) + (if s[k].value == y then s[k].weight else 0)
  {
    if k == |s| - 1 {
      assert s[..k] + s[k + 1..] == Front(s);
    } else {
      WeightOfRemove(Front(s), k, y);
      assert Front(s[..k] + s[k + 1..]) == Front(s)[..k] + Front(s)[k + 1..];
    }
  }

  lemma CancelOne<T>(a: multiset<T>, b: multiset<T>, x: T)
    requires a + multiset{x} == b + multiset{x}
    ensures a == b
  {
    assert a == (a + multiset{x}) - multiset{x};
    assert b == (b + multiset{x}) - multiset{x};
  }

  lemma SplitLast<T>(s: seq<T>)
    requires s != []
    ensures multiset(s) == multiset(Front(s)) + multiset{Last(s)}
  {
    assert s == Front(s) + [Last(s)];
  }

  lemma SplitAt<T>(s: seq<T>, k: nat)
    requires k < |s|
    ensures multiset(s) == multiset(s[..k] + s[k + 1..]) + multiset{s[k]}
  {
    assert s == s[..k] + [s[k]] + s[k + 1..];
  }

  lemma {:induction false} WeightOfPermuted(a: seq<Weighted>, b: seq<Weighted>, y: real)
    requires multiset(a) == multiset(b)
    ensures WeightOf(a, y) == WeightOf(b, y)
  {
    if a == [] {
      assert |multiset(a)| == 0 && |multiset(b)| == |b|;
    } else {
      assert Last(a) in multiset(a) && Last(a) in b;
      var k :| 0 <= k < |b| && b[k] == Last(a);
      var rest := b[..k] + b[k + 1..];
      SplitLast(a);
      SplitAt(b, k);
      CancelOne(multiset(Front(a)), multiset(rest), Last(a));
      WeightOfPermuted(Front(a), rest, y);
      WeightOfRemove(b, k, y);
    }
  }

  lemma {:induction false} SortedUnique(a: seq<real>, b: seq<real>)
    requires InOrder(a) && InOrder(b) && multiset(a) == multiset(b)
    ensures a == b
  {
    assert |multiset(a)| == |a| && |multiset(b)| == |b|;
    if a != [] {
      SortedLast(a, b);
      SortedLast(b, a);
      SplitLast(a);
      SplitLast(b);
      CancelOne(multiset(Front(a)), multiset(Front(b)), Last(a));
      SortedUnique(Front(a), Front(b));
      assert a == Front(a) + [Last(a)] && b == Front(b) + [Last(b)];
    }
  }

  lemma SortedLast(a: seq<real>, b: seq<real>)
    requires a != [] && b != [] && InOrder(b) && multiset(a) == multiset(b)
    ensures Last(a) <= Last(b)
  {
    assert Last(a) in multiset(a) && Last(a) in b;
    var i :| 0 <= i < |b| && b[i] == Last(a);
  }

  function Ceil(x: real): int { -((-x).Floor) }

  /** The nearest rank of a percentile among n values. */
  function Rank(p: real, n: int): int { Ceil(Share(p, n)) }

  function Share(p: real, n: int): real { p * n as real }

  lemma RankInRange(p: real, n: int)
    requires 0.0 < p <= 1.0 && n > 0
    ensures 1 <= Rank(p, n) <= n
  {
    var x := p * n as real;
    assert 0.0 < x <= n as real;
    assert (-x).Floor as real <= -x < (-x).Floor as real + 1.0;
  }

  /** The least rank that is at least the percentile's share. */
  lemma RankLeast(p: real, n: int)
    ensures Rank(p, n) as real >= p * n as real && (Rank(p, n) - 1) as real < p * n as real
  {
    var x := p * n as real;
    assert (-x).Floor as real <= -x < (-x).Floor as real + 1.0;
  }

  /** r stands at a rank of the sorted list of repeated values, whichever way that list is obtained. */
  ghost predicate AtRank(s: seq<Weighted>, k: int, r: real)
    requires Positive(s)
  {
    forall e: seq<real> :: InOrder(e) && multiset(e) == multiset(Expand(s)) ==> 1 <= k <= |e| && e[k - 1] == r
  }

  lemma Cumulative(s: seq<Weighted>, i: nat, k: int)
    requires Positive(s) && i < |s| && TotalWeight(s[..i]) < k <= TotalWeight(s[..i + 1])
    ensures 1 <= k <= |Expand(s)| && Expand(s)[k - 1] == s[i].value
  {
    ExpandLength(s[..i]);
    ExpandLength(s[..i + 1]);
    assert Front(s[..i + 1]) == s[..i];
    ExpandPrefix(s, i + 1);
    assert Expand(s[..i + 1]) == Expand(s[..i]) + Repeat(s[i].value, s[i].weight);
  }

  lemma {:induction false} ExpandPrefix(s: seq<Weighted>, n: nat)
    requires Positive(s) && n <= |s|
    ensures Expand(s[..n]) <= Expand(s)
  {
    if n < |s| {
      ExpandPrefix(Front(s), n);
      assert Front(s)[..n] == s[..n];
    } else {
      assert s[..n] == s;
    }
  }

  lemma PermutedPositive(s: seq<Weighted>, t: seq<Weighted>)
    requires Positive(s) && multiset(t) == multiset(s)
    ensures Positive(t) && |t| == |s| && multiset(Expand(t)) == multiset(Expand(s))
  {
    assert |multiset(t)| == |t| && |multiset(s)| == |s|;
    forall i | 0 <= i < |t| ensures t[i].weight > 0 {
      assert t[i] in multiset(t) && t[i] in s;
    }
    forall x ensures multiset(Expand(t))[x] == multiset(Expand(s))[x] {
      ExpandCount(t, x);
      ExpandCount(s, x);
      WeightOfPermuted(t, s, x);
    }
  }

  lemma RankFound(values: seq<Weighted>, sorted: seq<Weighted>, i: nat, target: int)
    requires Positive(values) && ByValue(sorted) && multiset(sorted) == multiset(values)
    requires i < |sorted| && TotalWeight(sorted[..i]) < target <= TotalWeight(sorted[..i + 1])
    ensures AtRank(values, target, sorted[i].value)
  {
    PermutedPositive(values, sorted);
    Cumulative(sorted, i, target);
    ExpandOrdered(sorted);
    forall e: seq<real> | InOrder(e) && multiset(e) == multiset(Expand(values))
      ensures 1 <= target <= |e| && e[target - 1] == sorted[i].value
    {
      SortedUnique(e, Expand(sorted));
    }
  }

  lemma SameTotal(values: seq<Weighted>, sorted: seq<Weighted>)
    requires Positive(values) && multiset(sorted) == multiset(values)
    ensures Positive(sorted) && |sorted| == |values| && TotalWeight(sorted) == |Expand(values)|
  {
    PermutedPositive(values, sorted);
    ExpandLength(sorted);
    assert |multiset(Expand(sorted))| == |Expand(sorted)| && |multiset(Expand(values))| == |Expand(values)|;
  }

  method AddWeights(s: seq<Weighted>) returns (total: int)
    ensures total == TotalWeight(s)
  {
    total := 0;
    for i := 0 to |s|
      invariant total == TotalWeight(s[..i])
    {
      assert Front(s[..i + 1]) == s[..i];
      total := total + s[i].weight;
    }
    assert s[..|s|] == s;
  }

  /** The first index at which the running weight reaches the target; the scan does not fall through. */
  method Scan(s: seq<Weighted>, target: int) returns (k: nat)
    requires 1 <= target <= TotalWeight(s)
    ensures k < |s| && TotalWeight(s[..k]) < target <= TotalWeight(s[..k + 1])
  {
    assert s[..|s|] == s;
    var cumulative := 0;
    for i := 0 to |s|
      invariant cumulative == TotalWeight(s[..i]) && cumulative < target
    {
      assert Front(s[..i + 1]) == s[..i];
      cumulative := cumulative + s[i].weight;
      if cumulative >= target {
        return i;
      }
    }
    assert false;
  }

  /** The nearest-rank percentile: the element at that rank of the sorted list in which each value is
      repeated by its weight. */
  method Percentile(values: seq<Weighted>, p: real) returns (r: real)
    requires values != [] && Positive(values) && 0.0 < p <= 1.0
    ensures AtRank(values, Rank(p, |Expand(values)|), r)
  {
    hide AtRank;
    hide ByValue;
    hide Expand;
    hide TotalWeight;
    hide Ceil;
    hide Share;
    var sorted := SortByValue(values);
    SameTotal(values, sorted);
    ExpandLength(sorted);
    var total := AddWeights(sorted);
    RankInRange(p, total);
    var target := Ceil(Share(p, total));
    var k := Scan(sorted, target);
    RankFound(values, sorted, k, target);
    r := sorted[k].value;
  }

  /** There is such a list, so the rank determines the value. */
  lemma RankExists(s: seq<Weighted>, k: int, r: real)
    requires Positive(s) && AtRank(s, k, r)
    ensures multiset(Sorted(s)) == multiset(s) && Positive(Sorted(s))
    ensures 1 <= k <= |Expand(Sorted(s))| && Expand(Sorted(s))[k - 1] == r
  {
    SortedMeans(s);
    PermutedPositive(s, Sorted(s));
    ExpandOrdered(Sorted(s));
  }

  // ---------------------------------------------------------------- distribution

  const EDGES: seq<real> := [20.0, 40.0, 60.0, 80.0, 100.0, 150.0, 200.0, 500.0]

  /** A value belongs to the bucket whose upper edge is the first that is not below it. */
  predicate InBucket(v: real, b: nat) {
    b <= |EDGES| && (b == 0 || EDGES[b - 1] < v) && (b == |EDGES| || v <= EDGES[b])
  }

  lemma BucketUnique(v: real, a: nat, b: nat)
    requires InBucket(v, a) && InBucket(v, b)
    ensures a == b
  {
  }

  /** An edge belongs to the bucket it ends. */
  lemma EdgeEnds(b: nat)
    requires b < |EDGES|
    ensures InBucket(EDGES[b], b)
  {
  }

  function BucketWeight(s: seq<Weighted>, b: nat): int {
    if s == [] then 0 else BucketWeight(Front(s), b) + (if InBucket(Last(s).value, b) then Last(s).weight else 0)
  }

  function SumInts(s: seq<int>): int { if s == [] then 0 else SumInts(Front(s)) + Last(s) }

  method FindBucket(v: real) returns (b: nat)
    ensures InBucket(v, b)
  {
    var edges := EDGES;
    var low, high := 0, |edges|;
    while low < high
      invariant 0 <= low <= high <= |edges|
      invariant low > 0 ==> edges[low - 1] < v
      invariant high < |edges| ==> v <= edges[high]
    {
      var mid := (low + high) / 2;
      if v <= edges[mid] {
        high := mid;
      } else {
        low := mid + 1;
      }
    }
    b := low;
  }

  /** Each value's weight is counted in exactly the bucket whose edges contain it, so the counts add up to
      the total weight. */
  method Distribution(values: seq<Weighted>) returns (counts: seq<int>)
    ensures |counts| == |EDGES| + 1
    ensures forall b :: 0 <= b < |counts| ==> counts[b] == BucketWeight(values, b)
    ensures SumInts(counts) == TotalWeight(values)
  {
    counts := seq(|EDGES| + 1, _ => 0);
    SumZeros(|EDGES| + 1);
    for i := 0 to |values|
      invariant |counts| == |EDGES| + 1
      invariant forall b :: 0 <= b < |counts| ==> counts[b] == BucketWeight(values[..i], b)
      invariant SumInts(counts) == TotalWeight(values[..i])
    {
      assert Front(values[..i + 1]) == values[..i];
      var index := FindBucket(values[i].value);
      forall b: nat | b < |counts| && InBucket(values[i].value, b) ensures b == index {
        BucketUnique(values[i].value, b, index);
      }
      SumUpdate(counts, index, counts[index] + values[i].weight);
      counts := counts[index := counts[index] + values[i].weight];
    }
    assert values[..|values|] == values;
  }

  lemma {:induction false} SumUpdate(s: seq<int>, k: nat, x: int)
    requires k < |s|
    ensures SumInts(s[k := x]) == SumInts(s) + x - s[k]
  {
    if k < |s| - 1 {
      SumUpdate(Front(s), k, x);
      assert Front(s[k := x]) == Front(s)[k := x];
    } else {
      assert Front(s[k := x]) == Front(s);
    }
  }

  lemma {:induction false} SumZeros(n: nat)
    ensures SumInts(seq(n, _ => 0)) == 0
  {
    if n > 0 {
      SumZeros(n - 1);
      assert Front(seq(n, _ => 0)) == seq(n - 1, _ => 0);
    }
  }

  // ---------------------------------------------------------------- battery load

  datatype Point = Point(at: int, value: real, samples: int)

  datatype Load =
    | ClockNotSane
    | NoPositiveSample
    | ClockInvalid
    | Stale
    | Watts(value: real)

  const LOAD_WINDOW: int := 900_000_000_000

  predicate Believed(p: Point, now: int) { p.value > 0.0 && YEAR_2025 <= p.at <= now }

  predicate InWindow(p: Point, now: int) { Believed(p, now) && p.at >= now - LOAD_WINDOW }

  function WeightOfPoint(p: Point): Weighted { Weighted(p.value, if p.samples <= 0 then 1 else p.samples) }

  /** The points the load is computed from, in their order. */
  function Window(s: seq<Point>, now: int): (r: seq<Weighted>)
    ensures Positive(r)
  {
    if s == [] then []
    else Window(Front(s), now) + (if InWindow(Last(s), now) then [WeightOfPoint(Last(s))] else [])
  }

  /** One point more: it is in the window when it is positive and lies between 2025 and now, at most 15 minutes ago; it
      weighs as much as its samples, and one when it has none. */
  lemma WindowOne(s: seq<Point>, p: Point, now: int)
    ensures Window(s + [p], now) == Window(s, now)
      + if p.value > 0.0 && 1_735_689_600_000_000_000 <= p.at <= now && now - p.at <= 15 * 60_000_000_000
        then [Weighted(p.value, if p.samples > 0 then p.samples else 1)] else []
  {
    assert Front(s + [p]) == s;
  }

  lemma {:induction false} WindowNonempty(s: seq<Point>, now: int)
    ensures Window(s, now) != [] <==> exists i :: 0 <= i < |s| && InWindow(s[i], now)
  {
    if s != [] {
      WindowNonempty(Front(s), now);
      if i :| 0 <= i < |s| && InWindow(s[i], now) {
        assert i == |s| - 1 || InWindow(Front(s)[i], now);
      }
      if i :| 0 <= i < |Front(s)| && InWindow(Front(s)[i], now) {
        assert InWindow(s[i], now);
      }
    }
  }

  /** What a load answer means, for any list of samples and any clock. */
  ghost predicate LoadMeans(now: int, points: seq<Point>, load: Load) {
    match load
    case ClockNotSane => now < YEAR_2025
    case NoPositiveSample => now >= YEAR_2025 && forall i :: 0 <= i < |points| ==> points[i].value <= 0.0
    case ClockInvalid =>
      now >= YEAR_2025 && (exists i :: 0 <= i < |points| && points[i].value > 0.0)
      && forall i :: 0 <= i < |points| ==> !Believed(points[i], now)
    case Stale =>
      now >= YEAR_2025 && (exists i :: 0 <= i < |points| && Believed(points[i], now))
      && forall i :: 0 <= i < |points| ==> !InWindow(points[i], now)
    case Watts(value) =>
      now >= YEAR_2025 && Window(points, now) != [] && Positive(Window(points, now)) && value > 0.0
      && |Expand(Window(points, now))| > 0
      && value == Sum(Expand(Window(points, now))) / |Expand(Window(points, now))| as real
  }

  lemma {:induction false} SumPositive(s: seq<Weighted>)
    requires Positive(s) && s != [] && forall i :: 0 <= i < |s| ==> s[i].value > 0.0
    ensures WeightedSum(s) > 0.0
  {
    if |s| > 1 {
      SumPositive(Front(s));
    } else {
      assert WeightedSum(Front(s)) == 0.0;
    }
    assert Last(s).value * Last(s).weight as real > 0.0;
  }

  lemma {:induction false} WindowValues(s: seq<Point>, now: int)
    ensures forall i :: 0 <= i < |Window(s, now)| ==> Window(s, now)[i].value > 0.0
  {
    if s != [] {
      WindowValues(Front(s), now);
    }
  }

  method KeepPowered(points: seq<Point>) returns (positive: seq<Point>)
    ensures positive == Kept(points, Powered)
  {
    positive := [];
    for i := 0 to |points|
      invariant positive == Kept(points[..i], Powered)
    {
      assert Front(points[..i + 1]) == points[..i];
      if points[i].value > 0.0 {
        positive := positive + [points[i]];
      }
    }
    assert points[..|points|] == points;
  }

  predicate IsLatest(s: seq<Point>, latest: int) {
    (forall k :: 0 <= k < |s| ==> s[k].at <= latest)
    && (if s == [] then latest == 0 else exists k :: 0 <= k < |s| && s[k].at == latest)
  }

  lemma LatestGrows(s: seq<Point>, latest: int, p: Point)
    requires IsLatest(s, latest) && p.at > 0
    ensures IsLatest(s + [p], if p.at > latest then p.at else latest)
  {
    assert (s + [p])[|s|] == p;
    assert forall k :: 0 <= k < |s| ==> (s + [p])[k] == s[k];
  }

  method KeepTimed(positive: seq<Point>, now: int) returns (validTime: seq<Point>, latest: int)
    ensures validTime == Kept(positive, Timed(now)) && IsLatest(validTime, latest)
  {
    validTime, latest := [], 0;
    for i := 0 to |positive|
      invariant validTime == Kept(positive[..i], Timed(now)) && IsLatest(validTime, latest)
    {
      assert Front(positive[..i + 1]) == positive[..i];
      if positive[i].at < YEAR_2025 || positive[i].at > now {
        continue;
      }
      LatestGrows(validTime, latest, positive[i]);
      validTime := validTime + [positive[i]];
      if positive[i].at > latest {
        latest := positive[i].at;
      }
    }
    assert positive[..|positive|] == positive;
  }

  method KeepRecent(validTime: seq<Point>, cutoff: int) returns (values: seq<Weighted>)
    ensures values == Recent(validTime, cutoff)
  {
    values := [];
    for i := 0 to |validTime|
      invariant values == Recent(validTime[..i], cutoff)
    {
      assert Front(validTime[..i + 1]) == validTime[..i];
      if validTime[i].at < cutoff {
        continue;
      }
      var weight := validTime[i].samples;
      if weight <= 0 {
        weight := 1;
      }
      values := values + [Weighted(validTime[i].value, weight)];
    }
    assert validTime[..|validTime|] == validTime;
  }

  lemma StaleWindow(points: seq<Point>, now: int, latest: int)
    requires IsLatest(Kept(points, Both(now)), latest) && latest < now - LOAD_WINDOW
    ensures forall i :: 0 <= i < |points| ==> !InWindow(points[i], now)
  {
    forall i | 0 <= i < |points| ensures !InWindow(points[i], now) {
      if InWindow(points[i], now) {
        KeptHas(points, Both(now), i);
      }
    }
  }

  lemma FreshWindow(points: seq<Point>, now: int, latest: int)
    requires IsLatest(Kept(points, Both(now)), latest) && Kept(points, Both(now)) != [] && latest >= now - LOAD_WINDOW
    ensures Window(points, now) != [] && WeightedSum(Window(points, now)) > 0.0
  {
    WindowKept(points, now);
    RecentNonempty(Kept(points, Both(now)), now - LOAD_WINDOW);
    WindowValues(points, now);
    SumPositive(Window(points, now));
  }

  lemma MeanPositive(values: seq<Weighted>)
    requires values != [] && Positive(values) && WeightedSum(values) > 0.0
    ensures |Expand(values)| > 0 && Sum(Expand(values)) / |Expand(values)| as real > 0.0
  {
    ExpandLength(values);
    ExpandSum(values);
  }

  /** The power filters in the order in which they are tried. */
  method BatteryLoad(now: int, points: seq<Point>) returns (load: Load)
    ensures LoadMeans(now, points, load)
  {
    hide Kept, Window, IsLatest, Expand, Sum, WeightedSum;
    if now < YEAR_2025 {
      return ClockNotSane;
    }
    var positive := KeepPowered(points);
    KeptNonempty(points, Powered);
    if positive == [] {
      return NoPositiveSample;
    }
    var validTime, latest := KeepTimed(positive, now);
    KeptTwice(points, now);
    KeptNonempty(points, Both(now));
    if validTime == [] {
      return ClockInvalid;
    }
    var cutoff := now - LOAD_WINDOW;
    if latest < cutoff {
      StaleWindow(points, now, latest);
      return Stale;
    }
    FreshWindow(points, now, latest);
    var values := KeepRecent(validTime, cutoff);
    WindowKept(points, now);
    MeanPositive(values);
    var mean := Mean(values);
    load := Watts(mean);
  }

  /** The filters a sample passes through one after the other, and both together. */
  datatype Stage = Powered | Timed(now: int) | Both(now: int)

  predicate Passes(f: Stage, p: Point) {
    match f
    case Powered => p.value > 0.0
    case Timed(now) => YEAR_2025 <= p.at <= now
    case Both(now) => Believed(p, now)
  }

  function Kept(s: seq<Point>, f: Stage): seq<Point> {
    if s == [] then [] else Kept(Front(s), f) + (if Passes(f, Last(s)) then [Last(s)] else [])
  }

  function Recent(s: seq<Point>, cutoff: int): seq<Weighted> {
    if s == [] then [] else Recent(Front(s), cutoff) + (if Last(s).at < cutoff then [] else [WeightOfPoint(Last(s))])
  }

  lemma {:induction false} KeptHas(s: seq<Point>, f: Stage, i: nat)
    requires i < |s| && Passes(f, s[i])
    ensures s[i] in Kept(s, f)
  {
    if i < |s| - 1 {
      KeptHas(Front(s), f, i);
    }
  }

  lemma {:induction false} KeptNonempty(s: seq<Point>, f: Stage)
    ensures Kept(s, f) != [] <==> exists i :: 0 <= i < |s| && Passes(f, s[i])
  {
    if s != [] {
      KeptNonempty(Front(s), f);
      if i :| 0 <= i < |s| && Passes(f, s[i]) {
        KeptHas(s, f, i);
      }
      if i :| 0 <= i < |Front(s)| && Passes(f, Front(s)[i]) {
        assert Passes(f, s[i]);
      }
    }
  }

  lemma {:induction false} KeptTwice(s: seq<Point>, now: int)
    ensures Kept(Kept(s, Powered), Timed(now)) == Kept(s, Both(now))
  {
    if s != [] {
      KeptTwice(Front(s), now);
      var k := Kept(Front(s), Powered);
      assert Front(k + [Last(s)]) == k;
      assert k + [] == k;
    }
  }

  lemma {:induction false} WindowKept(s: seq<Point>, now: int)
    ensures Window(s, now) == Recent(Kept(s, Both(now)), now - LOAD_WINDOW)
  {
    if s != [] {
      WindowKept(Front(s), now);
      var k := Kept(Front(s), Both(now));
      assert Front(k + [Last(s)]) == k;
      assert k + [] == k;
    }
  }

  lemma {:induction false} RecentNonempty(s: seq<Point>, cutoff: int)
    requires exists i :: 0 <= i < |s| && s[i].at >= cutoff
    ensures Recent(s, cutoff) != []
  {
    var i :| 0 <= i < |s| && s[i].at >= cutoff;
    if i < |s| - 1 {
      assert Front(s)[i].at >= cutoff;
      RecentNonempty(Front(s), cutoff);
    }
  }
}
