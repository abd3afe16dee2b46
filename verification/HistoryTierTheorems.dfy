/** What the tiers keep over every flush: each quarter row merges all the minute rows of its quarter, every
    mean lies between its minimum and maximum, and when a minute row is exact. */
module HistoryTierTheorems {
  import opened Basics
  import opened HistoryRing
  import opened HistoryAggregates
  import opened HistoryTiers
  import HistoryStore

  // ---------------------------------------------------------------- quarters

  lemma {:induction false} RowsSame(before: Table, after: Table, keys: seq<Key>)
    requires Within(keys, before) && forall i :: 0 <= i < |keys| ==> Same(before, after, keys[i])
    ensures Within(keys, after) && RowsAt(before, keys) == RowsAt(after, keys)
  {
    if keys != [] {
      RowsSame(before, after, keys[..|keys| - 1]);
    }
  }

  lemma QuarterSame(before: Table, after: Table, q: Key, row: Row)
    requires QuarterIs(before, q, row) && forall k :: Belongs(k, q) ==> Same(before, after, k)
    ensures QuarterIs(after, q, row)
  {
    var keys :| Quarterly(before, q, keys) && Within(keys, before) && Merges(row, RowsAt(before, keys));
    forall i | 0 <= i < |keys| ensures Same(before, after, keys[i]) {
      assert keys[i] in keys;
    }
    RowsSame(before, after, keys);
    assert Quarterly(after, q, keys);
  }

  /** The quarter table is right wherever nothing has been pruned: there is a row for every quarter with a
      minute row and for no other, and it merges all of them. */
  ghost predicate QuartersRight(minutes: Table, quarters: Table, pruned: int) {
    forall q: Key :: q.at >= pruned ==> QuarterRight(minutes, quarters, q)
  }

  ghost predicate QuarterRight(minutes: Table, quarters: Table, q: Key) {
    (q in quarters <==> HasRows(minutes, q)) && (q in quarters ==> QuarterIs(minutes, q, quarters[q]))
  }

  lemma RightSame(m: Table, m': Table, quarters: Table, quarters': Table, q: Key)
    requires QuarterRight(m, quarters, q) && Same(quarters, quarters', q)
    requires forall k :: Belongs(k, q) ==> Same(m, m', k)
    ensures QuarterRight(m', quarters', q)
  {
    if HasRows(m, q) {
      var k :| k in m && Belongs(k, q);
      assert Same(m, m', k);
      QuarterSame(m, m', q, quarters[q]);
    }
    forall k | k in m' && Belongs(k, q) ensures k in m {
      assert Same(m, m', k);
    }
  }

  /** Rebuilding from the quarter of the earliest new minute on is enough. */
  lemma RebuildRight(m: Table, quarters: Table, m': Table, quarters': Table, earliest: int, pruned: int)
    requires QuartersRight(m, quarters, pruned)
    requires forall k: Key :: k.at < earliest ==> Same(m, m', k)
    requires Rebuilt(m', quarters, quarters', Quarter(earliest))
    requires forall q: Key :: q in quarters && q.at >= Quarter(earliest) && q.at >= pruned ==> HasRows(m', q)
    ensures QuartersRight(m', quarters', pruned)
  {
    hide QuarterIs, HasRows;
    forall q: Key | q.at >= pruned ensures QuarterRight(m', quarters', q) {
      assert QuarterRight(m, quarters, q);
      if q.at < Quarter(earliest) {
        forall k | Belongs(k, q) ensures Same(m, m', k) {
          if k.at >= earliest {
            QuarterMonotone(earliest, k.at);
          }
        }
        RightSame(m, m', quarters, quarters', q);
      }
    }
  }

  lemma HasRowsGrows(m: Table, m': Table, q: Key)
    requires m.Keys <= m'.Keys && HasRows(m, q)
    ensures HasRows(m', q)
  {
    var k :| k in m && Belongs(k, q);
    assert k in m'.Keys;
  }

  function Retained(table: Table, cut: int): Table { map k | k in table && k.at >= cut :: table[k] }

  function Latest(a: int, b: int): int { if a >= b then a else b }

  /** Deleting old rows leaves the rest right. */
  lemma RetainRight(m: Table, quarters: Table, pruned: int, minuteCut: int, quarterCut: int)
    requires QuartersRight(m, quarters, pruned)
    ensures QuartersRight(Retained(m, minuteCut), Retained(quarters, quarterCut),
                          Latest(pruned, Latest(minuteCut, quarterCut)))
  {
    var bound := Latest(pruned, Latest(minuteCut, quarterCut));
    forall q: Key | q.at >= bound ensures QuarterRight(Retained(m, minuteCut), Retained(quarters, quarterCut), q) {
      assert QuarterRight(m, quarters, q);
      forall k | Belongs(k, q) ensures Same(m, Retained(m, minuteCut), k) {
        Floors(k.at);
      }
      RightSame(m, Retained(m, minuteCut), quarters, Retained(quarters, quarterCut), q);
    }
  }

  ghost predicate AllSane(table: Table) { forall k :: k in table ==> Sane(table[k]) }

  lemma {:induction false} RowsSane(table: Table, keys: seq<Key>)
    requires Within(keys, table) && AllSane(table)
    ensures forall i :: 0 <= i < |RowsAt(table, keys)| ==> Sane(RowsAt(table, keys)[i])
  {
    if keys != [] {
      RowsSane(table, keys[..|keys| - 1]);
    }
  }

  lemma QuarterSane(table: Table, q: Key, row: Row)
    requires AllSane(table) && QuarterIs(table, q, row)
    ensures Sane(row)
  {
    var keys :| Quarterly(table, q, keys) && Within(keys, table) && Merges(row, RowsAt(table, keys));
    RowsSane(table, keys);
    MergedSane(row, RowsAt(table, keys));
  }

  // ---------------------------------------------------------------- one flush

  /** The minute table after a flush: the row of every minute with a point in the window is that minute's
      exact row over the window, other rows are as they were, and old ones are gone. */
  ghost predicate MinutesWritten(before: Table, after: Table, window: Window, cut: int) {
    forall k: Key :: MinuteWritten(before, after, window, cut, k)
  }

  ghost predicate MinuteWritten(before: Table, after: Table, window: Window, cut: int, k: Key) {
    if k.at < cut then k !in after
    else if Values(window, k) != [] then k in after && Exact(after[k], Values(window, k))
    else Same(before, after, k)
  }

  lemma MinutesAre(before: Table, window: Window, m: map<Key, Agg>, cut: int)
    requires Gathered(m, window) && Counted(m)
    ensures MinutesWritten(before, Retained(Upserted(before, m), cut), window, cut)
  {
    hide Exact;
    forall k: Key ensures MinuteWritten(before, Retained(Upserted(before, m), cut), window, cut, k) {
      assert GatheredAt(m, window, k);
      if Values(window, k) != [] {
        OfValuesExact(Values(window, k));
      }
    }
  }

  lemma UpsertedSane(before: Table, window: Window, m: map<Key, Agg>)
    requires Gathered(m, window) && Counted(m) && AllSane(before)
    ensures AllSane(Upserted(before, m))
  {
    forall k | k in m ensures Sane(RowOf(m[k])) {
      assert GatheredAt(m, window, k);
      OfValuesExact(Values(window, k));
      ExactSane(RowOf(m[k]), Values(window, k));
    }
  }

  lemma RebuiltSane(minutes: Table, before: Table, after: Table, since: int)
    requires AllSane(minutes) && AllSane(before) && Rebuilt(minutes, before, after, since)
    ensures AllSane(after)
  {
    hide Sane;
    forall q | q in after ensures Sane(after[q]) {
      if q.at >= since && HasRows(minutes, q) {
        QuarterSane(minutes, q, after[q]);
      } else {
        assert Same(before, after, q);
      }
    }
  }

  // ---------------------------------------------------------------- when a minute row is exact

  /** No sample of the minute is before the window. */
  predicate NoneCut(all: seq<Sample>, since: int, at: int) {
    forall i :: 0 <= i < |all| && all[i].time >= YEAR_2025_SECONDS && Minute(all[i].time) == at ==> all[i].time * SECOND >= since
  }

  lemma NoneCutSnoc(front: seq<Sample>, last: Sample, since: int, at: int)
    ensures NoneCut(front + [last], since, at)
       <==> NoneCut(front, since, at)
            && (last.time >= YEAR_2025_SECONDS && Minute(last.time) == at ==> last.time * SECOND >= since)
  {
    var all := front + [last];
    assert all[|front|] == last && forall i :: 0 <= i < |front| ==> all[i] == front[i];
  }

  lemma {:induction false} InMinuteSince(all: seq<Sample>, since: int, at: int)
    ensures |InMinute(HistoryStore.Since(all, since), at)| <= |InMinute(all, at)|
    ensures NoneCut(all, since, at) <==> |InMinute(HistoryStore.Since(all, since), at)| == |InMinute(all, at)|
    ensures NoneCut(all, since, at) ==> InMinute(HistoryStore.Since(all, since), at) == InMinute(all, at)
  {
    if all != [] {
      var front, last := all[..|all| - 1], all[|all| - 1];
      InMinuteSince(front, since, at);
      NoneCutSnoc(front, last, since, at);
      assert all == front + [last];
      hide Minute, NoneCut;
      var kept := HistoryStore.Since(front, since);
      InMinuteSnoc(front, last, at);
      InMinuteSnoc(kept, last, at);
      assert HistoryStore.Since(all, since) == if last.time * SECOND >= since then kept + [last] else kept;
      hide InMinute, HistoryStore.Since;
    }
  }

  /** The row a flush writes for a minute is exact over everything the RAM tier holds of that minute if and
      only if the window misses none of it: the upsert replaces the row, so a minute that the window cuts in
      two loses what an earlier flush had. */
  lemma MinuteExactIff(all: seq<Sample>, since: int, at: int, row: Row)
    requires Exact(row, InMinute(HistoryStore.Since(all, since), at))
    ensures Exact(row, InMinute(all, at))
       <==> NoneCut(all, since, at)
  {
    InMinuteSince(all, since, at);
  }

  /** A minute that lies wholly in the window is always exact. */
  lemma WholeMinuteExact(all: seq<Sample>, since: int, at: int, row: Row)
    requires Exact(row, InMinute(HistoryStore.Since(all, since), at)) && at * SECOND >= since
    ensures Exact(row, InMinute(all, at))
  {
    forall i | 0 <= i < |all| && all[i].time >= YEAR_2025_SECONDS && Minute(all[i].time) == at
      ensures all[i].time * SECOND >= since
    {
      Floors(all[i].time);
    }
    MinuteExactIff(all, since, at, row);
  }

  /** The next window holds the whole of the minute in which the last flush ran, so a row written in
      mid-minute is completed. */
  lemma LastMinuteCovered(flushed: int)
    ensures Minute(flushed / SECOND) * SECOND >= flushed - 60 * SECOND
  {
    Floors(flushed / SECOND);
  }

  /** The minute before it is cut whenever the flush is not minute-aligned: an exact row of two samples is
      replaced by a row of one. */
  lemma CutMinute(at: int, series: string)
    requires at >= YEAR_2025_SECONDS && Minute(at) == at
    ensures var all := [Sample(at, 1.0), Sample(at + 50, 3.0)];
            && InMinute(all, at) == [1.0, 3.0]
            && InMinute(HistoryStore.Since(all, (at + 90) * SECOND - 60 * SECOND), at) == [3.0]
            && forall row :: Exact(row, [3.0]) ==> !Exact(row, [1.0, 3.0])
  {
    CutTimes(at);
    ExactLength([1.0, 3.0], [3.0]);
    hide Minute, Exact;
    var first, second := Sample(at, 1.0), Sample(at + 50, 3.0);
    assert [first] + [second] == [first, second] && [] + [first] == [first] && [] + [second] == [second];
    InMinuteSnoc([], first, at);
    InMinuteSnoc([first], second, at);
    InMinuteSnoc([], second, at);
    hide InMinute;
    SinceSnoc([], first, (at + 90) * SECOND - 60 * SECOND);
    SinceSnoc([first], second, (at + 90) * SECOND - 60 * SECOND);
    hide HistoryStore.Since;
  }

  lemma CutTimes(at: int)
    requires Minute(at) == at
    ensures Minute(at + 50) == at
    ensures at * SECOND < (at + 90) * SECOND - 60 * SECOND <= (at + 50) * SECOND
  {
    ModOf(at, 60, at / 60, 0);
    ModOf(at + 50, 60, at / 60, 50);
  }

  lemma ExactLength(a: seq<real>, b: seq<real>)
    requires |a| != |b|
    ensures forall row :: Exact(row, b) ==> !Exact(row, a)
  {
  }

  lemma SinceSnoc(s: seq<Sample>, x: Sample, since: int)
    ensures HistoryStore.Since(s + [x], since)
         == HistoryStore.Since(s, since) + if HistoryStore.NotBefore(x, since) then [x] else []
  {
    assert (s + [x])[..|s|] == s;
  }

  /** When the minute rows of a quarter are exact over some samples, the quarter row is exact over all of
      them, just as if they had been aggregated directly. */
  lemma QuarterExact(minutes: Table, q: Key, row: Row, samples: Window)
    requires QuarterIs(minutes, q, row)
    requires forall k :: k in minutes && Belongs(k, q) ==> Exact(minutes[k], Values(samples, k))
    ensures exists keys :: Quarterly(minutes, q, keys) && Exact(row, Flat(Parts(samples, keys)))
    ensures exists keys :: Quarterly(minutes, q, keys) && OfValues(Flat(Parts(samples, keys))).count > 0
              && row == RowOf(OfValues(Flat(Parts(samples, keys))))
  {
    var keys :| Quarterly(minutes, q, keys) && Within(keys, minutes) && Merges(row, RowsAt(minutes, keys));
    forall i | 0 <= i < |keys| ensures Exact(minutes[keys[i]], Values(samples, keys[i])) {
      assert keys[i] in keys;
    }
    PartsExact(minutes, keys, samples);
    MergingIsExact(row, RowsAt(minutes, keys), Parts(samples, keys));
  }

  function Parts(samples: Window, keys: seq<Key>): seq<seq<real>> {
    if keys == [] then [] else Parts(samples, keys[..|keys| - 1]) + [Values(samples, keys[|keys| - 1])]
  }

  lemma {:induction false} PartsExact(minutes: Table, keys: seq<Key>, samples: Window)
    requires Within(keys, minutes)
    requires forall i :: 0 <= i < |keys| ==> Exact(minutes[keys[i]], Values(samples, keys[i]))
    ensures AllExact(RowsAt(minutes, keys), Parts(samples, keys))
  {
    hide Exact, Values;
    if keys != [] {
      PartsExact(minutes, keys[..|keys| - 1], samples);
    }
  }
}
