/** The outage summary: outages are clipped to a span, sorted, and merged in place where they overlap;
    the summary counts the merged intervals and adds up their lengths. */
module OutageSummary {
  import opened Basics
  import Sorting

  /** An outage as the timeline reports it; times are nanoseconds and zero is "not set". */
  datatype Outage = Outage(start: int, duration: int, ongoing: bool)

  /** The times from `start` up to but not including `end`. */
  datatype Interval = Interval(start: int, end: int)

  datatype Summary = Summary(count: nat, downtime: int, longest: int)

  const UNSET := 0

  function Min(a: int, b: int): int { if a < b then a else b }

  function Max(a: int, b: int): int { if a < b then b else a }

  /** The part of an outage inside the span, if any. */
  function Clip(o: Outage, since: int, now: int): Option<Interval> {
    var start := if o.start < since then since else o.start;
    var open := if o.ongoing && now != UNSET then now else o.start + o.duration;
    var end := if now != UNSET && open > now then now else open;
    if end > start then Some(Interval(start, end)) else None
  }

  function ClipAll(outages: seq<Outage>, since: int, now: int): seq<Interval> {
    if outages == [] then []
    else
      var before := ClipAll(outages[..|outages| - 1], since, now);
      match Clip(outages[|outages| - 1], since, now)
      case Some(i) => before + [i]
      case None => before
  }

  // ---------------------------------------------------------------- merging

  predicate Proper(s: seq<Interval>) { forall i :: 0 <= i < |s| ==> s[i].start < s[i].end }

  predicate ByStart(s: seq<Interval>) { forall i, j :: 0 <= i < j < |s| ==> s[i].start <= s[j].start }

  /** In order, nonempty, and none reaching into the next. */
  predicate Apart(s: seq<Interval>) { Proper(s) && forall i, j :: 0 <= i < j < |s| ==> s[i].end <= s[j].start }

  /** Merging one interval into a merged list: it extends the last one if it begins inside it. */
  function MergeOne(merged: seq<Interval>, next: Interval): seq<Interval>
    requires merged != []
  {
    var n := |merged| - 1;
    if next.start < merged[n].end then merged[..n] + [Interval(merged[n].start, Max(merged[n].end, next.end))]
    else merged + [next]
  }

  function Merge(s: seq<Interval>): (r: seq<Interval>)
    requires s != []
    ensures r != []
  {
    if |s| == 1 then s else MergeOne(Merge(s[..|s| - 1]), s[|s| - 1])
  }

  predicate Inside(x: int, i: Interval) { i.start < x < i.end }

  predicate InsideSome(x: int, s: seq<Interval>) { exists i :: 0 <= i < |s| && Inside(x, s[i]) }

  predicate StartsAt(x: int, s: seq<Interval>) { exists i :: 0 <= i < |s| && s[i].start == x }

  predicate EndsAt(x: int, s: seq<Interval>) { exists i :: 0 <= i < |s| && s[i].end == x }

  predicate Within(i: Interval, s: seq<Interval>) {
    exists j :: 0 <= j < |s| && s[j].start <= i.start && i.end <= s[j].end
  }

  /** `merged` joins exactly the intervals of s that overlap: its bounds are bounds of s, every interval of
      s lies in one of its intervals, and each point inside it lies inside an interval of s. */
  ghost predicate Joins(merged: seq<Interval>, s: seq<Interval>) {
    && Apart(merged)
    && (forall i :: 0 <= i < |merged| ==> StartsAt(merged[i].start, s) && EndsAt(merged[i].end, s))
    && (forall i :: 0 <= i < |s| ==> Within(s[i], merged))
    && (forall i, x :: 0 <= i < |merged| && Inside(x, merged[i]) ==> InsideSome(x, s))
  }

  lemma StartsAtMore(x: int, s: seq<Interval>, next: Interval)
    ensures StartsAt(x, s) ==> StartsAt(x, s + [next])
    ensures EndsAt(x, s) ==> EndsAt(x, s + [next])
    ensures InsideSome(x, s) ==> InsideSome(x, s + [next])
    ensures StartsAt(next.start, s + [next]) && EndsAt(next.end, s + [next])
    ensures Inside(x, next) ==> InsideSome(x, s + [next])
  {
    var t := s + [next];
    assert t[|s|] == next;
    if StartsAt(x, s) {
      var i :| 0 <= i < |s| && s[i].start == x;
      assert t[i].start == x;
    }
    if EndsAt(x, s) {
      var i :| 0 <= i < |s| && s[i].end == x;
      assert t[i].end == x;
    }
    if InsideSome(x, s) {
      var i :| 0 <= i < |s| && Inside(x, s[i]);
      assert Inside(x, t[i]);
    }
  }

  lemma WithinMore(i: Interval, merged: seq<Interval>, next: Interval)
    requires merged != [] && Within(i, merged)
    ensures Within(i, MergeOne(merged, next))
  {
    var j :| 0 <= j < |merged| && merged[j].start <= i.start && i.end <= merged[j].end;
    var r := MergeOne(merged, next);
    assert r[j].start <= i.start && i.end <= r[j].end;
  }

  lemma WithinNext(merged: seq<Interval>, next: Interval)
    requires merged != [] && merged[|merged| - 1].start <= next.start
    ensures Within(next, MergeOne(merged, next))
  {
    var r := MergeOne(merged, next);
    assert r[|r| - 1].start <= next.start && next.end <= r[|r| - 1].end;
  }

  lemma MergeOneApart(merged: seq<Interval>, next: Interval)
    requires merged != [] && Apart(merged) && next.start < next.end && merged[|merged| - 1].start <= next.start
    ensures Apart(MergeOne(merged, next))
  {
    var n := |merged| - 1;
    assert forall i :: 0 <= i < n ==> merged[i].end <= merged[n].start < merged[n].end;
  }

  lemma MergeOneBounds(merged: seq<Interval>, s: seq<Interval>, next: Interval, i: nat)
    requires merged != [] && i < |MergeOne(merged, next)|
    requires i < |merged| ==> StartsAt(merged[i].start, s) && EndsAt(merged[i].end, s)
    ensures StartsAt(MergeOne(merged, next)[i].start, s + [next]) && EndsAt(MergeOne(merged, next)[i].end, s + [next])
  {
    hide StartsAt;
    hide EndsAt;
    if i < |merged| {
      StartsAtMore(merged[i].start, s, next);
      StartsAtMore(merged[i].end, s, next);
    }
    StartsAtMore(next.start, s, next);
  }

  lemma MergeOneInside(merged: seq<Interval>, s: seq<Interval>, next: Interval, i: nat, x: int)
    requires merged != [] && i < |MergeOne(merged, next)| && Inside(x, MergeOne(merged, next)[i])
    requires i < |merged| && Inside(x, merged[i]) ==> InsideSome(x, s)
    ensures InsideSome(x, s + [next])
  {
    hide InsideSome;
    hide StartsAt;
    hide EndsAt;
    StartsAtMore(x, s, next);
  }

  lemma MergeOneJoins(merged: seq<Interval>, s: seq<Interval>, next: Interval)
    requires merged != [] && Joins(merged, s) && next.start < next.end
    requires merged[|merged| - 1].start <= next.start
    ensures Joins(MergeOne(merged, next), s + [next])
  {
    hide StartsAt;
    hide EndsAt;
    hide InsideSome;
    hide Within;
    hide MergeOne;
    hide Apart;
    var r, t := MergeOne(merged, next), s + [next];
    MergeOneApart(merged, next);
    forall i | 0 <= i < |r| ensures StartsAt(r[i].start, t) && EndsAt(r[i].end, t) {
      MergeOneBounds(merged, s, next, i);
    }
    forall i | 0 <= i < |t| ensures Within(t[i], r) {
      if i < |s| {
        WithinMore(s[i], merged, next);
      } else {
        WithinNext(merged, next);
      }
    }
    forall i, x | 0 <= i < |r| && Inside(x, r[i]) ensures InsideSome(x, t) {
      MergeOneInside(merged, s, next, i, x);
    }
  }

  /** Merging a list sorted by start joins its overlapping intervals. */
  lemma {:induction false} MergeJoins(s: seq<Interval>)
    requires s != [] && Proper(s) && ByStart(s)
    ensures Joins(Merge(s), s) && Merge(s)[|Merge(s)| - 1].start <= s[|s| - 1].start
  {
    hide Joins;
    if |s| == 1 {
      JoinsSelf(s);
    } else {
      var front, next := s[..|s| - 1], s[|s| - 1];
      MergeJoins(front);
      assert front[|front| - 1].start <= next.start;
      MergeOneJoins(Merge(front), front, next);
      assert front + [next] == s;
    }
  }

  lemma JoinsSelf(s: seq<Interval>)
    requires |s| == 1 && Proper(s)
    ensures Joins(s, s)
  {
    assert StartsAt(s[0].start, s) && EndsAt(s[0].end, s) && Within(s[0], s);
    forall i, x | 0 <= i < |s| && Inside(x, s[i]) ensures InsideSome(x, s) {}
  }

  // ---------------------------------------------------------------- the result does not depend on order

  lemma NotInside(merged: seq<Interval>, s: seq<Interval>, x: int, i: nat, k: nat)
    requires Apart(merged) && i < |merged| && (merged[i].start == x || merged[i].end == x)
    requires k < |s| && Within(s[k], merged)
    ensures !Inside(x, s[k])
  {
    var j :| 0 <= j < |merged| && merged[j].start <= s[k].start && s[k].end <= merged[j].end;
    if i < j {
      assert merged[i].end <= merged[j].start;
    } else if j < i {
      assert merged[j].end <= merged[i].start;
    }
  }

  /** A bound of a merged interval lies inside no interval. */
  lemma BoundNotInside(merged: seq<Interval>, s: seq<Interval>, x: int)
    requires Apart(merged) && (StartsAt(x, merged) || EndsAt(x, merged))
    requires forall k :: 0 <= k < |s| ==> Within(s[k], merged)
    ensures !InsideSome(x, s)
  {
    var i :| 0 <= i < |merged| && (merged[i].start == x || merged[i].end == x);
    forall k | 0 <= k < |s| ensures !Inside(x, s[k]) {
      NotInside(merged, s, x, i, k);
    }
  }

  /** A bound that lies inside no interval is a bound of a merged one. */
  lemma BoundIsMerged(merged: seq<Interval>, s: seq<Interval>, k: nat)
    requires k < |s| && s[k].start < s[k].end && Within(s[k], merged)
    requires forall i, x :: 0 <= i < |merged| && Inside(x, merged[i]) ==> InsideSome(x, s)
    ensures !InsideSome(s[k].start, s) ==> StartsAt(s[k].start, merged)
    ensures !InsideSome(s[k].end, s) ==> EndsAt(s[k].end, merged)
  {
    hide InsideSome;
    var j :| 0 <= j < |merged| && merged[j].start <= s[k].start && s[k].end <= merged[j].end;
    assert Inside(s[k].start, merged[j]) ==> InsideSome(s[k].start, s);
    assert Inside(s[k].end, merged[j]) ==> InsideSome(s[k].end, s);
  }

  /** A merged interval starts (or ends) at x exactly if some interval does and none has x inside it. */
  lemma JoinedBounds(merged: seq<Interval>, s: seq<Interval>, x: int)
    requires Joins(merged, s) && Proper(s)
    ensures StartsAt(x, merged) <==> StartsAt(x, s) && !InsideSome(x, s)
    ensures EndsAt(x, merged) <==> EndsAt(x, s) && !InsideSome(x, s)
  {
    hide InsideSome;
    hide Within;
    hide Apart;
    if StartsAt(x, merged) || EndsAt(x, merged) {
      BoundNotInside(merged, s, x);
    }
    forall k | 0 <= k < |s|
      ensures s[k].start == x && !InsideSome(x, s) ==> StartsAt(x, merged)
      ensures s[k].end == x && !InsideSome(x, s) ==> EndsAt(x, merged)
    {
      BoundIsMerged(merged, s, k);
    }
  }

  predicate Increasing(s: seq<int>) { forall i, j :: 0 <= i < j < |s| ==> s[i] < s[j] }

  lemma {:induction false} IncreasingUnique(a: seq<int>, b: seq<int>)
    requires Increasing(a) && Increasing(b) && forall x :: x in a <==> x in b
    ensures a == b
  {
    if b != [] {
      assert b[0] in b && b[0] in a;
    }
    if a != [] {
      assert a[0] in a && a[0] in b;
      var x, y := a[|a| - 1], b[|b| - 1];
      assert x in a && y in b && x in b && y in a;
      assert x == y;
      var c, d := a[..|a| - 1], b[..|b| - 1];
      forall z ensures z in c <==> z in d {
        assert z in c <==> z in a && z != x;
        assert z in d <==> z in b && z != x;
      }
      IncreasingUnique(c, d);
      assert a == c + [x] && b == d + [x];
    }
  }

  function Starts(s: seq<Interval>): seq<int> { seq(|s|, i requires 0 <= i < |s| => s[i].start) }

  function Ends(s: seq<Interval>): seq<int> { seq(|s|, i requires 0 <= i < |s| => s[i].end) }

  lemma ApartIncreasing(s: seq<Interval>)
    requires Apart(s)
    ensures Increasing(Starts(s)) && Increasing(Ends(s))
    ensures forall x :: (x in Starts(s) <==> StartsAt(x, s)) && (x in Ends(s) <==> EndsAt(x, s))
  {
    forall x ensures (x in Starts(s) <==> StartsAt(x, s)) && (x in Ends(s) <==> EndsAt(x, s)) {
      if StartsAt(x, s) {
        var i :| 0 <= i < |s| && s[i].start == x;
        assert Starts(s)[i] == x;
      }
      if EndsAt(x, s) {
        var i :| 0 <= i < |s| && s[i].end == x;
        assert Ends(s)[i] == x;
      }
    }
  }

  ghost predicate SameIntervals(s: seq<Interval>, t: seq<Interval>) { forall i: Interval :: i in s <==> i in t }

  lemma SameBounds(s: seq<Interval>, t: seq<Interval>, x: int)
    requires SameIntervals(s, t)
    ensures StartsAt(x, s) ==> StartsAt(x, t)
    ensures EndsAt(x, s) ==> EndsAt(x, t)
    ensures InsideSome(x, s) ==> InsideSome(x, t)
  {
    forall i | 0 <= i < |s| ensures exists j :: 0 <= j < |t| && t[j] == s[i] {
      assert s[i] in s && s[i] in t;
    }
  }

  /** Two joinings of the same intervals are equal. */
  lemma JoinsUnique(a: seq<Interval>, b: seq<Interval>, s: seq<Interval>, t: seq<Interval>)
    requires Joins(a, s) && Joins(b, t) && Proper(s) && Proper(t) && SameIntervals(s, t)
    ensures a == b
  {
    ApartIncreasing(a);
    ApartIncreasing(b);
    forall x ensures (x in Starts(a) <==> x in Starts(b)) && (x in Ends(a) <==> x in Ends(b)) {
      JoinedBounds(a, s, x);
      JoinedBounds(b, t, x);
      SameBounds(s, t, x);
      SameBounds(t, s, x);
    }
    IncreasingUnique(Starts(a), Starts(b));
    IncreasingUnique(Ends(a), Ends(b));
    assert |Starts(a)| == |a| && |Starts(b)| == |b|;
    forall i | 0 <= i < |a| ensures a[i] == b[i] {
      assert Starts(a)[i] == Starts(b)[i] && Ends(a)[i] == Ends(b)[i];
    }
  }

  // ---------------------------------------------------------------- how much time is covered

  predicate Covers(s: seq<Interval>, t: int) { exists i :: 0 <= i < |s| && s[i].start <= t < s[i].end }

  /** The points from a up to but not including b. */
  function Range(a: int, b: int): set<int>
    decreases b - a
  {
    if a >= b then {} else Range(a, b - 1) + {b - 1}
  }

  lemma {:induction false} RangeIs(a: int, b: int, t: int)
    ensures t in Range(a, b) <==> a <= t < b
    decreases b - a
  {
    if a < b {
      RangeIs(a, b - 1, t);
    }
  }

  /** The points in time that some interval covers. */
  function Points(s: seq<Interval>): set<int> {
    if s == [] then {} else Points(s[..|s| - 1]) + Range(s[|s| - 1].start, s[|s| - 1].end)
  }

  lemma {:induction false} PointsAre(s: seq<Interval>, t: int)
    ensures t in Points(s) <==> Covers(s, t)
  {
    if s != [] {
      var front := s[..|s| - 1];
      PointsAre(front, t);
      RangeIs(s[|s| - 1].start, s[|s| - 1].end, t);
      if Covers(front, t) {
        var i :| 0 <= i < |front| && front[i].start <= t < front[i].end;
        assert s[i].start <= t < s[i].end;
      }
      if s[|s| - 1].start <= t < s[|s| - 1].end {
        assert Covers(s, t);
      }
    }
  }

  lemma {:induction false} RangeSize(a: int, b: int)
    requires a <= b
    ensures |Range(a, b)| == b - a
    decreases b - a
  {
    if a < b {
      RangeSize(a, b - 1);
      RangeIs(a, b - 1, b - 1);
    }
  }

  function Total(s: seq<Interval>): int {
    if s == [] then 0 else Total(s[..|s| - 1]) + (s[|s| - 1].end - s[|s| - 1].start)
  }

  function Longest(s: seq<Interval>): int {
    if s == [] then 0 else Max(Longest(s[..|s| - 1]), s[|s| - 1].end - s[|s| - 1].start)
  }

  /** Intervals that keep apart cover as many points as their lengths add up to. */
  lemma {:induction false} ApartTotal(s: seq<Interval>)
    requires Apart(s)
    ensures Total(s) == |Points(s)|
  {
    if s != [] {
      var front, last := s[..|s| - 1], s[|s| - 1];
      ApartTotal(front);
      RangeSize(last.start, last.end);
      forall t | t in Points(front) ensures t !in Range(last.start, last.end) {
        PointsAre(front, t);
        RangeIs(last.start, last.end, t);
      }
      assert Points(front) !! Range(last.start, last.end);
    }
  }

  lemma CoveredWithin(merged: seq<Interval>, s: seq<Interval>, t: int)
    requires Covers(s, t) && forall k :: 0 <= k < |s| ==> Within(s[k], merged)
    ensures Covers(merged, t)
  {
    var k :| 0 <= k < |s| && s[k].start <= t < s[k].end;
    assert Within(s[k], merged);
  }

  lemma InsideCovered(s: seq<Interval>, t: int)
    requires Proper(s) && (InsideSome(t, s) || StartsAt(t, s))
    ensures Covers(s, t)
  {
    if InsideSome(t, s) {
      var i :| 0 <= i < |s| && Inside(t, s[i]);
      assert s[i].start <= t < s[i].end;
    }
  }

  lemma JoinedCovers(merged: seq<Interval>, s: seq<Interval>, t: int)
    requires Joins(merged, s) && Proper(s)
    ensures Covers(merged, t) <==> Covers(s, t)
  {
    hide InsideSome;
    hide StartsAt;
    hide EndsAt;
    hide Within;
    hide Apart;
    if Covers(merged, t) {
      var i :| 0 <= i < |merged| && merged[i].start <= t < merged[i].end;
      assert t != merged[i].start ==> Inside(t, merged[i]);
      InsideCovered(s, t);
    }
    if Covers(s, t) {
      CoveredWithin(merged, s, t);
    }
  }

  /** Joining keeps the points covered. */
  lemma JoinedPoints(merged: seq<Interval>, s: seq<Interval>)
    requires Joins(merged, s) && Proper(s)
    ensures Points(merged) == Points(s)
  {
    hide Joins;
    forall t ensures t in Points(merged) <==> t in Points(s) {
      JoinedCovers(merged, s, t);
      PointsAre(merged, t);
      PointsAre(s, t);
    }
  }

  // ---------------------------------------------------------------- clipping

  /** The points in time an outage covers inside the span. */
  predicate Down(o: Outage, since: int, now: int, t: int) {
    && since <= t && (now != UNSET ==> t < now)
    && o.start <= t < (if o.ongoing && now != UNSET then now else o.start + o.duration)
  }

  lemma ClipMeans(o: Outage, since: int, now: int, t: int)
    ensures var c := Clip(o, since, now);
            && (c.Some? ==> c.value.start < c.value.end)
            && (c.Some? && c.value.start <= t < c.value.end <==> Down(o, since, now, t))
  {
  }

  lemma {:induction false} ClipAllMeans(outages: seq<Outage>, since: int, now: int, t: int)
    ensures Proper(ClipAll(outages, since, now))
    ensures Covers(ClipAll(outages, since, now), t) <==> exists i :: 0 <= i < |outages| && Down(outages[i], since, now, t)
  {
    if outages != [] {
      var front, o := outages[..|outages| - 1], outages[|outages| - 1];
      var before, all := ClipAll(front, since, now), ClipAll(outages, since, now);
      ClipAllMeans(front, since, now, t);
      ClipMeans(o, since, now, t);
      PointsAre(all, t);
      PointsAre(before, t);
      assert Clip(o, since, now).Some? ==> all[..|before|] == before;
      assert forall i :: 0 <= i < |front| ==> front[i] == outages[i];
      assert (exists i :: 0 <= i < |outages| && Down(outages[i], since, now, t)) <==>
             (exists i :: 0 <= i < |front| && Down(front[i], since, now, t)) || Down(o, since, now, t);
    }
  }

  lemma {:induction false} ClipAllMember(outages: seq<Outage>, since: int, now: int, x: Interval)
    ensures x in ClipAll(outages, since, now) <==> exists i :: 0 <= i < |outages| && Clip(outages[i], since, now) == Some(x)
  {
    if outages != [] {
      var front, o := outages[..|outages| - 1], outages[|outages| - 1];
      ClipAllMember(front, since, now, x);
      assert forall i :: 0 <= i < |front| ==> front[i] == outages[i];
      assert (exists i :: 0 <= i < |outages| && Clip(outages[i], since, now) == Some(x)) <==>
             (exists i :: 0 <= i < |front| && Clip(front[i], since, now) == Some(x)) || Clip(o, since, now) == Some(x);
    }
  }

  // ---------------------------------------------------------------- the algorithm

  /** Sorts by start; nothing is promised about the order of equal starts. */
  method SortByStart(s: seq<Interval>) returns (a: array<Interval>)
    ensures fresh(a) && ByStart(a[..]) && multiset(a[..]) == multiset(s)
  {
    var sorted := Sorted(s);
    SortedMeans(s);
    assert |multiset(sorted)| == |sorted| && |multiset(s)| == |s|;
    a := new Interval[|s|](i requires 0 <= i < |s| => sorted[i]);
    assert a[..] == sorted;
  }

  lemma MergeStep(s: seq<Interval>, i: nat)
    requires 1 <= i < |s|
    ensures Merge(s[..i + 1]) == MergeOne(Merge(s[..i]), s[i])
  {
    assert s[..i + 1][..i] == s[..i];
  }

  /** Puts one interval into the merged front of the array. */
  method MergeNext(a: array<Interval>, m: nat, next: Interval) returns (m': nat)
    requires 0 < m < a.Length
    modifies a
    ensures m <= m' <= m + 1 && a[..m'] == MergeOne(old(a[..m]), next)
    ensures forall j :: m' <= j < a.Length ==> a[j] == old(a[j])
  {
    ghost var merged := a[..m];
    if next.start < a[m - 1].end {
      if next.end > a[m - 1].end {
        a[m - 1] := Interval(a[m - 1].start, next.end);
      }
      m' := m;
      assert a[..m] == merged[..m - 1] + [a[m - 1]];
    } else {
      a[m] := next;
      m' := m + 1;
      assert a[..m'] == merged + [next];
    }
  }

  /** Merges the overlapping intervals of a sorted array in place: the merged list overwrites the front of
      the array while the rest is still being read. */
  method MergeInPlace(a: array<Interval>) returns (m: nat)
    requires a.Length > 0
    modifies a
    ensures 0 < m <= a.Length && a[..m] == Merge(old(a[..]))
  {
    hide Merge;
    hide MergeOne;
    ghost var input := a[..];
    m := 1;
    MergeSingle(input[..1]);
    for i := 1 to a.Length
      invariant 1 <= m <= i && a[..m] == Merge(input[..i])
      invariant forall j :: i <= j < a.Length ==> a[j] == input[j]
    {
      MergeStep(input, i);
      m := MergeNext(a, m, a[i]);
    }
    assert input[..a.Length] == input;
  }

  lemma MergeSingle(s: seq<Interval>)
    requires |s| == 1
    ensures Merge(s) == s
  {
  }

  /** Number, total length and longest length of the merged outages in a span. */
  method Summarize(outages: seq<Outage>, since: int, now: int) returns (r: Option<Summary>)
    ensures r == Answer(outages, since, now)
  {
    var intervals: seq<Interval> := [];
    for i := 0 to |outages|
      invariant intervals == ClipAll(outages[..i], since, now)
    {
      assert outages[..i + 1][..i] == outages[..i];
      var clipped := Clip(outages[i], since, now);
      if clipped.Some? {
        intervals := intervals + [clipped.value];
      }
    }
    assert outages[..|outages|] == outages;
    if |intervals| == 0 {
      return None;
    }
    var a := SortByStart(intervals);
    ghost var sorted := a[..];
    SameMembers(sorted, intervals);
    var m := MergeInPlace(a);
    var downtime, longest := 0, 0;
    for i := 0 to m
      invariant a[..m] == Merge(sorted) && downtime == Total(a[..i]) && longest == Longest(a[..i])
    {
      assert a[..i + 1][..i] == a[..i];
      var length := a[i].end - a[i].start;
      downtime := downtime + length;
      if length > longest {
        longest := length;
      }
    }
    r := Some(Summary(m, downtime, longest));
    ClipAllMeans(outages, since, now, 0);
    SortedProper(intervals, sorted);
    MergeJoins(sorted);
    JoinedMeans(intervals, sorted, Merge(sorted));
  }

  lemma SameMembers(s: seq<Interval>, t: seq<Interval>)
    requires multiset(s) == multiset(t)
    ensures SameIntervals(s, t) && |s| == |t|
  {
    assert |multiset(s)| == |s| && |multiset(t)| == |t|;
    forall i: Interval ensures i in s <==> i in t {
      assert i in s <==> i in multiset(s);
      assert i in t <==> i in multiset(t);
    }
  }

  lemma SortedProper(s: seq<Interval>, t: seq<Interval>)
    requires Proper(s) && SameIntervals(t, s)
    ensures Proper(t)
  {
    forall i | 0 <= i < |t| ensures t[i].start < t[i].end {
      assert t[i] in t && t[i] in s;
    }
  }

  /** What joining a list means does not depend on the order it was sorted into. */
  lemma JoinedMeans(s: seq<Interval>, sorted: seq<Interval>, merged: seq<Interval>)
    requires s != [] && Proper(s) && Joins(merged, sorted) && SameIntervals(sorted, s)
    ensures Joined(s) == merged
  {
    SortedProper(s, sorted);
    var canon := Sorted(s);
    SortedMeans(s);
    SameMembers(canon, s);
    SortedProper(s, canon);
    assert canon != [] by {
      assert s[0] in canon;
    }
    MergeJoins(canon);
    JoinsUnique(Merge(canon), merged, canon, sorted);
  }

  function StartOf(i: Interval): real { i.start as real }

  function Sorted(s: seq<Interval>): seq<Interval> { Sorting.Sort(s, StartOf) }

  lemma SortedMeans(s: seq<Interval>)
    ensures ByStart(Sorted(s)) && multiset(Sorted(s)) == multiset(s)
  {
    Sorting.SortSorts(s, StartOf);
    var r := Sorted(s);
    forall i, j | 0 <= i < j < |r| ensures r[i].start <= r[j].start {
      assert StartOf(r[i]) <= StartOf(r[j]);
    }
  }

  /** The merged outages, from any list of nonempty intervals. */
  function Joined(s: seq<Interval>): seq<Interval> {
    if Sorted(s) == [] then [] else Merge(Sorted(s))
  }

  function Answer(outages: seq<Outage>, since: int, now: int): Option<Summary> {
    var s := ClipAll(outages, since, now);
    if s == [] then None else Some(Summary(|Joined(s)|, Total(Joined(s)), Longest(Joined(s))))
  }

  // ---------------------------------------------------------------- the theorems

  ghost predicate SameOutages(a: seq<Outage>, b: seq<Outage>) { multiset(a) == multiset(b) }

  lemma ClipSame(a: seq<Outage>, b: seq<Outage>, since: int, now: int)
    requires SameOutages(a, b)
    ensures SameIntervals(ClipAll(a, since, now), ClipAll(b, since, now))
  {
    hide Clip, ClipAll;
    forall o ensures o in a <==> o in b {
      assert o in multiset(a) <==> o in multiset(b);
    }
    forall i | 0 <= i < |a| ensures exists j :: 0 <= j < |b| && b[j] == a[i] {
      assert a[i] in a && a[i] in b;
    }
    forall i | 0 <= i < |b| ensures exists j :: 0 <= j < |a| && a[j] == b[i] {
      assert b[i] in b && b[i] in a;
    }
    forall x: Interval ensures x in ClipAll(a, since, now) <==> x in ClipAll(b, since, now) {
      ClipAllMember(a, since, now, x);
      ClipAllMember(b, since, now, x);
    }
  }

  /** The joined list depends on the set of intervals alone. */
  lemma JoinedSame(s: seq<Interval>, t: seq<Interval>)
    requires Proper(s) && Proper(t) && SameIntervals(s, t)
    ensures (s == [] <==> t == []) && Joined(s) == Joined(t)
  {
    if t != [] {
      assert t[0] in t && t[0] in s;
    }
    if s != [] {
      assert s[0] in s && s[0] in t;
      var canon := Sorted(t);
      SortedMeans(t);
      SameMembers(canon, t);
      SortedProper(t, canon);
      MergeJoins(canon);
      hide Merge, Joins;
      JoinedMeans(s, canon, Merge(canon));
      JoinedMeans(t, canon, Merge(canon));
    }
  }

  /** All three numbers are unchanged by permuting the outages. */
  lemma AnswerPermuted(a: seq<Outage>, b: seq<Outage>, since: int, now: int)
    requires SameOutages(a, b)
    ensures Answer(a, since, now) == Answer(b, since, now)
  {
    ClipSame(a, b, since, now);
    ClipAllMeans(a, since, now, 0);
    ClipAllMeans(b, since, now, 0);
    hide ClipAll, Joined, SameIntervals;
    JoinedSame(ClipAll(a, since, now), ClipAll(b, since, now));
  }

  lemma {:induction false} LongestIs(s: seq<Interval>)
    requires s != [] && Proper(s)
    ensures exists i :: 0 <= i < |s| && s[i].end - s[i].start == Longest(s)
    ensures forall i :: 0 <= i < |s| ==> s[i].end - s[i].start <= Longest(s)
  {
    var n := |s| - 1;
    var front := s[..n];
    if front == [] {
      assert Longest(front) == 0 && s[0].end - s[0].start == Longest(s);
    } else {
      LongestIs(front);
      var i :| 0 <= i < n && front[i].end - front[i].start == Longest(front);
      assert s[i].end - s[i].start == Longest(front);
      assert s[n].end - s[n].start <= Longest(s) && (Longest(s) == Longest(front) || Longest(s) == s[n].end - s[n].start);
      forall k | 0 <= k < |s| ensures s[k].end - s[k].start <= Longest(s) {
        assert k < n ==> front[k] == s[k];
      }
    }
  }

  /** There is an answer exactly when some outage is down at some time in the span. */
  lemma AnswerExists(outages: seq<Outage>, since: int, now: int)
    ensures Answer(outages, since, now).Some? <==> exists i, t :: 0 <= i < |outages| && Down(outages[i], since, now, t)
  {
    var s := ClipAll(outages, since, now);
    ClipAllMeans(outages, since, now, 0);
    hide ClipAll, Down, Joined;
    if s != [] {
      ClipAllMeans(outages, since, now, s[0].start);
      assert Covers(s, s[0].start);
    }
    if i, t :| 0 <= i < |outages| && Down(outages[i], since, now, t) {
      ClipAllMeans(outages, since, now, t);
    }
  }

  /** The longest outage is the longest of the merged ones. */
  lemma LongestMeans(outages: seq<Outage>, since: int, now: int)
    requires Answer(outages, since, now).Some?
    ensures var merged, longest := Joined(ClipAll(outages, since, now)), Answer(outages, since, now).value.longest;
            && (exists i :: 0 <= i < |merged| && merged[i].end - merged[i].start == longest)
            && forall i :: 0 <= i < |merged| ==> merged[i].end - merged[i].start <= longest
  {
    var s := ClipAll(outages, since, now);
    ClipAllMeans(outages, since, now, 0);
    hide ClipAll, Joined, Longest, Total;
    JoinedPointsAre(s);
    JoinedSome(s);
    LongestIs(Joined(s));
  }

  lemma JoinedSome(s: seq<Interval>)
    requires s != []
    ensures Joined(s) != []
  {
    SortedMeans(s);
    assert |multiset(Sorted(s))| == |Sorted(s)| && |multiset(s)| == |s|;
  }

  /** The downtime is the measure of the union of the outages inside the span: the number of points in
      time at which some outage is down. The merged outages cover exactly those points and keep apart. */
  lemma DowntimeIsMeasure(outages: seq<Outage>, since: int, now: int)
    requires Answer(outages, since, now).Some?
    ensures var merged := Joined(ClipAll(outages, since, now));
            && Apart(merged) && |merged| == Answer(outages, since, now).value.count
            && Answer(outages, since, now).value.downtime == |Points(merged)|
    ensures forall t :: t in Points(Joined(ClipAll(outages, since, now))) <==>
              exists i :: 0 <= i < |outages| && Down(outages[i], since, now, t)
  {
    hide Joins;
    hide Down;
    hide ClipAll;
    var s := ClipAll(outages, since, now);
    ClipAllMeans(outages, since, now, 0);
    JoinedPointsAre(s);
    forall t ensures t in Points(Joined(s)) <==> exists i :: 0 <= i < |outages| && Down(outages[i], since, now, t) {
      ClipAllMeans(outages, since, now, t);
      PointsAre(s, t);
    }
  }

  lemma JoinedPointsAre(s: seq<Interval>)
    requires s != [] && Proper(s)
    ensures var merged := Joined(s);
            Apart(merged) && Total(merged) == |Points(merged)| && Points(merged) == Points(s)
  {
    hide Apart;
    hide Within;
    hide StartsAt;
    hide EndsAt;
    hide InsideSome;
    var canon := Sorted(s);
    SortedMeans(s);
    SameMembers(canon, s);
    SortedProper(s, canon);
    MergeJoins(canon);
    ApartTotal(Merge(canon));
    JoinedPoints(Merge(canon), canon);
    forall t ensures t in Points(canon) <==> t in Points(s) {
      PointsAre(canon, t);
      PointsAre(s, t);
      if Covers(canon, t) {
        SameCovers(canon, s, t);
      }
      if Covers(s, t) {
        SameCovers(s, canon, t);
      }
    }
  }

  lemma SameCovers(s: seq<Interval>, t: seq<Interval>, x: int)
    requires SameIntervals(s, t) && Covers(s, x)
    ensures Covers(t, x)
  {
    var i :| 0 <= i < |s| && s[i].start <= x < s[i].end;
    assert s[i] in s && s[i] in t;
    var j :| 0 <= j < |t| && t[j] == s[i];
  }
}
