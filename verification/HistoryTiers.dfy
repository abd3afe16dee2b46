/** The minute and quarter tables: gathering RAM points into minutes, rolling minutes up into quarters, and
    what every row then stands for. */
module HistoryTiers {
  import opened Basics
  import opened HistoryRing
  import opened HistoryAggregates
  import HistoryStore

  datatype Key = Key(series: string, at: int)

  type Table = map<Key, Row>

  /** What a query of the RAM tier returned, by series. */
  type Window = map<string, seq<Sample>>

  /** `Truncate(time.Minute)` and `Truncate(15*time.Minute)` on Unix seconds. */
  function Minute(t: int): int { t - t % 60 }

  function Quarter(t: int): int { t - t % 900 }

  lemma Floors(t: int)
    ensures Minute(t) <= t < Minute(t) + 60 && Quarter(t) <= t < Quarter(t) + 900
    ensures Quarter(Quarter(t)) == Quarter(t)
    ensures Minute(t) % 60 == 0 && Quarter(t) % 900 == 0
  {
    ModOf(Minute(t), 60, t / 60, 0);
    ModOf(Quarter(t), 900, t / 900, 0);
  }

  lemma QuarterMonotone(s: int, t: int)
    requires s <= t
    ensures Quarter(s) <= Quarter(t)
  {
    assert Quarter(s) == s / 900 * 900 && Quarter(t) == t / 900 * 900;
  }

  // ---------------------------------------------------------------- minutes

  /** The values of the samples that fall into a minute, those before 2025 left out. */
  function InMinute(samples: seq<Sample>, at: int): seq<real> {
    if samples == [] then []
    else InMinute(samples[..|samples| - 1], at)
         + if samples[|samples| - 1].time >= YEAR_2025_SECONDS && Minute(samples[|samples| - 1].time) == at
           then [samples[|samples| - 1].value] else []
  }

  function Values(window: Window, k: Key): seq<real> {
    if k.series in window then InMinute(window[k.series], k.at) else []
  }

  function At(m: map<Key, Agg>, k: Key): Agg { if k in m then m[k] else EMPTY }

  /** One aggregate for every minute that has a sample, over exactly the samples of that minute. */
  ghost predicate Gathered(m: map<Key, Agg>, window: Window) { forall k :: GatheredAt(m, window, k) }

  predicate GatheredAt(m: map<Key, Agg>, window: Window, k: Key) {
    (k in m <==> Values(window, k) != []) && At(m, k) == OfValues(Values(window, k))
  }

  lemma InMinuteSnoc(samples: seq<Sample>, x: Sample, at: int)
    ensures InMinute(samples + [x], at)
         == InMinute(samples, at) + if x.time >= YEAR_2025_SECONDS && Minute(x.time) == at then [x.value] else []
  {
    assert (samples + [x])[..|samples|] == samples;
  }

  function Absorbed(m: map<Key, Agg>, name: string, x: Sample): map<Key, Agg> {
    if x.time < YEAR_2025_SECONDS then m
    else var k := Key(name, Minute(x.time)); m[k := Added(At(m, k), x.value, 1)]
  }

  lemma ValuesStep(window: Window, name: string, x: Sample, k: Key)
    requires name in window
    ensures Values(window[name := window[name] + [x]], k)
         == if x.time >= YEAR_2025_SECONDS && k == Key(name, Minute(x.time)) then Values(window, k) + [x.value]
            else Values(window, k)
  {
    if k.series == name {
      InMinuteSnoc(window[name], x, k.at);
    }
  }

  lemma GatherStepAt(m: map<Key, Agg>, window: Window, name: string, x: Sample, k: Key)
    requires GatheredAt(m, window, k) && name in window
    ensures GatheredAt(Absorbed(m, name, x), window[name := window[name] + [x]], k)
  {
    hide Values, Minute;
    ValuesStep(window, name, x, k);
    AddedLast(Values(window, k), x.value);
    hide OfValues, Added;
  }

  lemma GatherStep(m: map<Key, Agg>, window: Window, name: string, x: Sample)
    requires Gathered(m, window) && name in window
    ensures Gathered(Absorbed(m, name, x), window[name := window[name] + [x]])
  {
    hide GatheredAt, Absorbed;
    var m', window' := Absorbed(m, name, x), window[name := window[name] + [x]];
    forall k ensures GatheredAt(m', window', k) {
      assert GatheredAt(m, window, k);
      GatherStepAt(m, window, name, x, k);
    }
  }

  lemma AddedLast(values: seq<real>, v: real)
    ensures OfValues(values + [v]) == Added(OfValues(values), v, 1)
  {
    assert (values + [v])[..|values|] == values;
  }

  // ---------------------------------------------------------------- maps of aggregates

  function Cells(aggs: map<Key, Aggregate>): set<Aggregate> { set k | k in aggs :: aggs[k] }

  function Contents(aggs: map<Key, Aggregate>): map<Key, Agg>
    reads Cells(aggs)
  {
    map k | k in aggs :: aggs[k].Value()
  }

  /** No aggregate is shared by two keys. */
  ghost predicate Separate(aggs: map<Key, Aggregate>) {
    forall j, k :: j in aggs && k in aggs && j != k ==> aggs[j] != aggs[k]
  }

  method Slot(aggs: map<Key, Aggregate>, k: Key) returns (r: map<Key, Aggregate>)
    requires Separate(aggs)
    ensures Separate(r) && k in r && r.Keys == aggs.Keys + {k}
    ensures Contents(r) == Contents(aggs)[k := At(Contents(aggs), k)]
    ensures fresh(Cells(r) - Cells(aggs))
  {
    if k in aggs {
      return aggs;
    }
    var a := new Aggregate();
    r := aggs[k := a];
  }

  lemma ContentsAt(r: map<Key, Aggregate>)
    ensures Contents(r).Keys == r.Keys && forall k :: k in r ==> Contents(r)[k] == r[k].Value() && r[k] in Cells(r)
  {
  }

  lemma Apart(r: map<Key, Aggregate>, k: Key)
    requires Separate(r) && k in r
    ensures forall j :: j in r && j != k ==> r[j] != r[k]
  {
  }

  lemma ContentsChanged(r: map<Key, Aggregate>, k: Key, before: map<Key, Agg>)
    requires k in r && before.Keys == r.Keys
    requires forall j :: j in r && j != k ==> r[j].Value() == before[j]
    ensures Contents(r) == before[k := r[k].Value()]
  {
  }

  method Include(aggs: map<Key, Aggregate>, k: Key, value: real) returns (r: map<Key, Aggregate>)
    requires Separate(aggs)
    modifies Cells(aggs)
    ensures Separate(r) && fresh(Cells(r) - Cells(aggs))
    ensures Contents(r) == old(Contents(aggs))[k := Added(At(old(Contents(aggs)), k), value, 1)]
  {
    hide Added, AddedRow, Contents, Aggregate.Value;
    r := Slot(aggs, k);
    ghost var before := Contents(r);
    ContentsAt(r);
    Apart(r, k);
    hide Separate, Cells, At;
    r[k].Add(value, 1);
    ContentsChanged(r, k, before);
  }

  method IncludeRow(aggs: map<Key, Aggregate>, k: Key, row: Row) returns (r: map<Key, Aggregate>)
    requires Separate(aggs)
    modifies Cells(aggs)
    ensures Separate(r) && fresh(Cells(r) - Cells(aggs))
    ensures Contents(r) == old(Contents(aggs))[k := AddedRow(At(old(Contents(aggs)), k), row)]
  {
    hide Added, AddedRow, Contents, Aggregate.Value;
    r := Slot(aggs, k);
    ghost var before := Contents(r);
    ContentsAt(r);
    Apart(r, k);
    hide Separate, Cells, At;
    r[k].AddRange(row.min, row.avg, row.max, row.samples);
    ContentsChanged(r, k, before);
  }

  method GatherSeries(start: map<Key, Aggregate>, ghost window: Window, name: string, points: seq<Sample>)
    returns (aggs: map<Key, Aggregate>)
    requires Separate(start) && Gathered(Contents(start), window) && name !in window
    modifies Cells(start)
    ensures Separate(aggs) && fresh(Cells(aggs) - Cells(start))
    ensures Gathered(Contents(aggs), window[name := points])
  {
    hide Gathered;
    aggs := start;
    GatherNone(Contents(start), window, name);
    for i := 0 to |points|
      invariant Separate(aggs) && fresh(Cells(aggs) - Cells(start))
      invariant Gathered(Contents(aggs), window[name := points[..i]])
    {
      ghost var was := Contents(aggs);
      ghost var before := window[name := points[..i]];
      GatherStep(was, before, name, points[i]);
      assert points[..i + 1] == points[..i] + [points[i]];
      assert before[name := before[name] + [points[i]]] == window[name := points[..i + 1]];
      if points[i].time >= YEAR_2025_SECONDS {
        aggs := Include(aggs, Key(name, Minute(points[i].time)), points[i].value);
      }
      assert Contents(aggs) == Absorbed(was, name, points[i]);
    }
    assert points[..|points|] == points;
  }

  lemma GatherNone(m: map<Key, Agg>, window: Window, name: string)
    requires Gathered(m, window) && name !in window
    ensures Gathered(m, window[name := []])
  {
    var window' := window[name := []];
    forall k ensures GatheredAt(m, window', k) {
      assert GatheredAt(m, window, k);
    }
  }

  /** The points a flush reads of what the RAM tier holds: of every series, all not before `since`. */
  function ReadWindow(ram: Window, since: Option<int>): Window {
    map n | n in ram :: if since.Some? then HistoryStore.Since(ram[n], since.value) else ram[n]
  }

  /** That is what a RAM query without a limit answers. */
  lemma QueryReads(history: seq<Sample>, capacity: nat, since: int)
    ensures HistoryStore.Answer(history, capacity, Some(since), 0)
         == HistoryStore.Since(HistoryStore.Answer(history, capacity, None, 0), since)
  {
  }

  method Gather(ram: Window, since: Option<int>) returns (aggs: map<Key, Aggregate>)
    ensures Separate(aggs) && fresh(Cells(aggs))
    ensures Gathered(Contents(aggs), ReadWindow(ram, since))
  {
    hide Gathered, Contents, Separate, HistoryStore.Since;
    var window := ReadWindow(ram, since);
    ghost var read: Window := map[];
    aggs := map[];
    assert Separate(aggs) && Gathered(Contents(aggs), map[]) by {
      GatherEmpty(aggs);
    }
    var rest := window.Keys;
    while rest != {}
      invariant rest <= window.Keys && read.Keys == window.Keys - rest
      invariant forall n :: n in read ==> read[n] == window[n]
      invariant Separate(aggs) && fresh(Cells(aggs)) && Gathered(Contents(aggs), read)
      decreases |rest|
    {
      var name :| name in rest;
      rest := rest - {name};
      aggs := GatherSeries(aggs, read, name, window[name]);
      read := read[name := window[name]];
    }
    assert read == window;
  }

  lemma GatherEmpty(aggs: map<Key, Aggregate>)
    requires aggs == map[]
    ensures Separate(aggs) && Gathered(Contents(aggs), map[])
  {
  }

  // ---------------------------------------------------------------- the minute table

  predicate Counted(m: map<Key, Agg>) { forall k :: k in m ==> m[k].count > 0 }

  /** Insert, or replace the whole row when there is one. */
  function Upserted(table: Table, m: map<Key, Agg>): Table
    requires Counted(m)
  {
    map k | k in table.Keys + m.Keys :: if k in m then RowOf(m[k]) else table[k]
  }

  ghost predicate Earliest(m: map<Key, Agg>, earliest: Option<int>) {
    match earliest
    case None => m == map[]
    case Some(e) => (exists k :: k in m && k.at == e) && forall k :: k in m ==> e <= k.at
  }

  ghost predicate PartlyUpserted(table: Table, m: map<Key, Agg>, rest: set<Key>, r: Table)
    requires Counted(m)
  {
    && r.Keys == table.Keys + (m.Keys - rest)
    && forall k :: k in r ==> r[k] == if k in m && k !in rest then RowOf(m[k]) else table[k]
  }

  ghost predicate PartlyEarliest(m: map<Key, Agg>, rest: set<Key>, earliest: Option<int>) {
    match earliest
    case None => rest == m.Keys
    case Some(e) => (exists k :: k in m && k.at == e) && forall k :: k in m && k !in rest ==> e <= k.at
  }

  lemma UpsertStep(table: Table, m: map<Key, Agg>, rest: set<Key>, r: Table, k: Key)
    requires Counted(m) && rest <= m.Keys && k in rest && PartlyUpserted(table, m, rest, r)
    ensures PartlyUpserted(table, m, rest - {k}, r[k := RowOf(m[k])])
  {
  }

  lemma EarliestStep(m: map<Key, Agg>, rest: set<Key>, earliest: Option<int>, k: Key)
    requires rest <= m.Keys && k in rest && PartlyEarliest(m, rest, earliest)
    ensures PartlyEarliest(m, rest - {k}, if earliest.None? || k.at < earliest.value then Some(k.at) else earliest)
  {
  }

  lemma UpsertDone(table: Table, m: map<Key, Agg>, r: Table, earliest: Option<int>)
    requires Counted(m) && PartlyUpserted(table, m, {}, r) && PartlyEarliest(m, {}, earliest)
    ensures r == Upserted(table, m) && Earliest(m, earliest)
  {
  }

  method UpsertMinutes(table: Table, m: map<Key, Agg>) returns (r: Table, earliest: Option<int>)
    requires Counted(m)
    ensures r == Upserted(table, m) && Earliest(m, earliest)
  {
    r, earliest := table, None;
    var rest := m.Keys;
    assert PartlyUpserted(table, m, rest, r) && PartlyEarliest(m, rest, earliest);
    hide PartlyUpserted, PartlyEarliest, Upserted, Earliest;
    while rest != {}
      invariant rest <= m.Keys && PartlyUpserted(table, m, rest, r) && PartlyEarliest(m, rest, earliest)
      decreases |rest|
    {
      var k :| k in rest;
      UpsertStep(table, m, rest, r, k);
      EarliestStep(m, rest, earliest, k);
      rest := rest - {k};
      r := r[k := RowOf(m[k])];
      if earliest.None? || k.at < earliest.value {
        earliest := Some(k.at);
      }
    }
    assert rest == {};
    UpsertDone(table, m, r, earliest);
  }

  lemma GatheredCounted(m: map<Key, Agg>, window: Window)
    requires Gathered(m, window)
    ensures Counted(m)
  {
    forall k | k in m ensures m[k].count > 0 {
      OfValuesParts(Values(window, k));
      assert GatheredAt(m, window, k);
    }
  }

  // ---------------------------------------------------------------- the quarter table

  /** `SELECT … WHERE ts >= since ORDER BY ts`: the keys, each once, by time. */
  ghost predicate Listed(table: Table, since: int, keys: seq<Key>) {
    && (forall k :: k in keys <==> k in table && k.at >= since)
    && (forall i, j :: 0 <= i < j < |keys| ==> keys[i].at <= keys[j].at && keys[i] != keys[j])
  }

  method SelectSince(table: Table, since: int) returns (keys: seq<Key>)
    ensures Listed(table, since, keys)
  {
    keys := [];
    var rest := set k | k in table && k.at >= since;
    while rest != {}
      invariant forall k :: k in rest || k in keys <==> k in table && k.at >= since
      invariant forall k :: k in rest ==> k !in keys
      invariant forall i, k :: 0 <= i < |keys| && k in rest ==> keys[i].at <= k.at
      invariant forall i, j :: 0 <= i < j < |keys| ==> keys[i].at <= keys[j].at && keys[i] != keys[j]
      decreases |rest|
    {
      var k := Oldest(rest);
      keys, rest := keys + [k], rest - {k};
    }
  }

  method Oldest(keys: set<Key>) returns (k: Key)
    requires keys != {}
    ensures k in keys && forall j :: j in keys ==> k.at <= j.at
  {
    k :| k in keys;
    var rest := keys - {k};
    while rest != {}
      invariant k in keys && rest <= keys
      invariant forall j :: j in keys && j !in rest ==> k.at <= j.at
      decreases |rest|
    {
      var j :| j in rest;
      rest := rest - {j};
      if j.at < k.at {
        k := j;
      }
    }
  }

  predicate Belongs(k: Key, q: Key) { k.series == q.series && Quarter(k.at) == q.at }

  function OfQuarter(keys: seq<Key>, q: Key): seq<Key> {
    if keys == [] then []
    else OfQuarter(keys[..|keys| - 1], q) + if Belongs(keys[|keys| - 1], q) then [keys[|keys| - 1]] else []
  }

  predicate Within(keys: seq<Key>, table: Table) { forall i :: 0 <= i < |keys| ==> keys[i] in table }

  function RowsAt(table: Table, keys: seq<Key>): seq<Row>
    requires Within(keys, table)
  {
    if keys == [] then [] else RowsAt(table, keys[..|keys| - 1]) + [table[keys[|keys| - 1]]]
  }

  lemma {:induction false} OfQuarterWithin(table: Table, keys: seq<Key>, q: Key)
    requires Within(keys, table)
    ensures Within(OfQuarter(keys, q), table)
  {
    if keys != [] {
      OfQuarterWithin(table, keys[..|keys| - 1], q);
    }
  }

  function QuarterAgg(table: Table, keys: seq<Key>, q: Key): Agg
    requires Within(keys, table)
  {
    OfQuarterWithin(table, keys, q);
    OfRows(RowsAt(table, OfQuarter(keys, q)))
  }

  ghost predicate Rolled(m: map<Key, Agg>, table: Table, keys: seq<Key>)
    requires Within(keys, table)
  {
    forall q :: RolledAt(m, table, keys, q)
  }

  predicate RolledAt(m: map<Key, Agg>, table: Table, keys: seq<Key>, q: Key)
    requires Within(keys, table)
  {
    (q in m <==> OfQuarter(keys, q) != []) && At(m, q) == QuarterAgg(table, keys, q)
  }

  lemma RowsSnoc(table: Table, keys: seq<Key>, k: Key)
    requires Within(keys, table) && k in table
    ensures RowsAt(table, keys + [k]) == RowsAt(table, keys) + [table[k]]
    ensures OfRows(RowsAt(table, keys + [k])) == AddedRow(OfRows(RowsAt(table, keys)), table[k])
  {
    assert (keys + [k])[..|keys|] == keys;
    assert (RowsAt(table, keys) + [table[k]])[..|RowsAt(table, keys)|] == RowsAt(table, keys);
  }

  function RolledIn(m: map<Key, Agg>, table: Table, k: Key): map<Key, Agg>
    requires k in table
  {
    var q := Key(k.series, Quarter(k.at));
    m[q := AddedRow(At(m, q), table[k])]
  }

  lemma RollStepAt(m: map<Key, Agg>, table: Table, keys: seq<Key>, k: Key, q: Key)
    requires Within(keys, table) && RolledAt(m, table, keys, q) && k in table
    ensures RolledAt(RolledIn(m, table, k), table, keys + [k], q)
  {
    assert (keys + [k])[..|keys|] == keys;
    OfQuarterWithin(table, keys, q);
    if q == Key(k.series, Quarter(k.at)) {
      RowsSnoc(table, OfQuarter(keys, q), k);
      assert OfQuarter(keys + [k], q) == OfQuarter(keys, q) + [k];
    } else {
      assert OfQuarter(keys + [k], q) == OfQuarter(keys, q);
    }
  }

  lemma RollStep(m: map<Key, Agg>, table: Table, keys: seq<Key>, k: Key)
    requires Within(keys, table) && Rolled(m, table, keys) && k in table
    ensures Within(keys + [k], table) && Rolled(RolledIn(m, table, k), table, keys + [k])
  {
    hide RolledAt, RolledIn;
    forall q ensures RolledAt(RolledIn(m, table, k), table, keys + [k], q) {
      assert RolledAt(m, table, keys, q);
      RollStepAt(m, table, keys, k, q);
    }
  }

  method RollUp(table: Table, since: int) returns (keys: seq<Key>, aggs: map<Key, Aggregate>)
    ensures Listed(table, since, keys) && Within(keys, table)
    ensures Separate(aggs) && fresh(Cells(aggs)) && Rolled(Contents(aggs), table, keys)
  {
    hide Rolled;
    keys := SelectSince(table, since);
    forall i | 0 <= i < |keys| ensures keys[i] in table {
      assert keys[i] in keys;
    }
    aggs := map[];
    RollNone(table);
    for i := 0 to |keys|
      invariant Within(keys[..i], table)
      invariant Separate(aggs) && fresh(Cells(aggs)) && Rolled(Contents(aggs), table, keys[..i])
    {
      assert keys[..i + 1] == keys[..i] + [keys[i]];
      RollStep(Contents(aggs), table, keys[..i], keys[i]);
      aggs := IncludeRow(aggs, Key(keys[i].series, Quarter(keys[i].at)), table[keys[i]]);
    }
    assert keys[..|keys|] == keys;
  }

  lemma RollNone(table: Table)
    ensures Rolled(map[], table, [])
  {
  }

  /** The minute keys of a quarter, in time order, and all of them. */
  ghost predicate Quarterly(table: Table, q: Key, keys: seq<Key>) {
    && (forall k :: k in keys <==> k in table && Belongs(k, q))
    && (forall i, j :: 0 <= i < j < |keys| ==> keys[i].at < keys[j].at)
  }

  /** A quarter row merges all the minute rows of its quarter. */
  ghost predicate QuarterIs(table: Table, q: Key, row: Row) {
    exists keys :: Quarterly(table, q, keys) && Within(keys, table) && Merges(row, RowsAt(table, keys))
  }

  ghost predicate HasRows(table: Table, q: Key) { exists k :: k in table && Belongs(k, q) }

  ghost predicate AllFilled(table: Table) { forall k :: k in table ==> table[k].samples > 0 }

  lemma {:induction false} OfQuarterMembers(keys: seq<Key>, q: Key)
    ensures forall k :: k in OfQuarter(keys, q) <==> k in keys && Belongs(k, q)
  {
    if keys != [] {
      OfQuarterMembers(keys[..|keys| - 1], q);
      assert keys == keys[..|keys| - 1] + [keys[|keys| - 1]];
    }
  }

  predicate Ascending(keys: seq<Key>) { forall i, j :: 0 <= i < j < |keys| ==> keys[i].at < keys[j].at }

  lemma {:induction false} OfQuarterAscending(keys: seq<Key>, q: Key)
    requires forall i, j :: 0 <= i < j < |keys| ==> keys[i].at <= keys[j].at && keys[i] != keys[j]
    ensures Ascending(OfQuarter(keys, q))
  {
    if keys != [] {
      var front, last := keys[..|keys| - 1], keys[|keys| - 1];
      OfQuarterAscending(front, q);
      OfQuarterMembers(front, q);
      if Belongs(last, q) {
        var r := OfQuarter(front, q);
        forall i | 0 <= i < |r| ensures r[i].at < last.at {
          assert r[i] in r;
          var j :| 0 <= j < |front| && front[j] == r[i];
          assert keys[j] == r[i] && keys[|front|] == last;
        }
      }
    }
  }

  lemma {:induction false} RowsFilled(table: Table, keys: seq<Key>)
    requires Within(keys, table) && AllFilled(table)
    ensures |RowsAt(table, keys)| == |keys| && Filled(RowsAt(table, keys))
  {
    if keys != [] {
      RowsFilled(table, keys[..|keys| - 1]);
    }
  }

  lemma RolledQuarter(m: map<Key, Agg>, table: Table, since: int, keys: seq<Key>, q: Key)
    requires Within(keys, table) && Rolled(m, table, keys) && Listed(table, since, keys) && AllFilled(table)
    requires since == Quarter(since)
    ensures q in m <==> q.at >= since && HasRows(table, q)
    ensures q in m ==> m[q].count > 0 && QuarterIs(table, q, RowOf(m[q]))
  {
    var own := OfQuarter(keys, q);
    OfQuarterMembers(keys, q);
    OfQuarterAscending(keys, q);
    OfQuarterWithin(table, keys, q);
    assert RolledAt(m, table, keys, q);
    forall k | k in table && Belongs(k, q) && q.at >= since ensures k in own {
      Floors(k.at);
    }
    if q in m {
      assert own[0] in own;
      QuarterMonotone(since, own[0].at);
      RowsFilled(table, own);
      OfRowsMerges(RowsAt(table, own));
      forall k ensures k in own <==> k in table && Belongs(k, q) {
        Floors(k.at);
      }
      assert Quarterly(table, q, own);
    }
  }

  ghost predicate Rebuilt(table: Table, before: Table, after: Table, since: int) {
    forall q: Key :: if q.at >= since && HasRows(table, q) then q in after && QuarterIs(table, q, after[q])
                else Same(before, after, q)
  }

  predicate Same(before: Table, after: Table, k: Key) {
    (k in after <==> k in before) && (k in before ==> after[k] == before[k])
  }

  /** Rebuilds every quarter from a quarter boundary on. */
  method RebuildQuarters(table: Table, quarters: Table, since: int) returns (r: Table)
    requires AllFilled(table) && since == Quarter(since)
    ensures Rebuilt(table, quarters, r, since)
  {
    hide Rolled, Listed, QuarterIs, HasRows, AllFilled;
    var keys, aggs := RollUp(table, since);
    forall q ensures q in aggs <==> q.at >= since && HasRows(table, q) {
      RolledQuarter(Contents(aggs), table, since, keys, q);
    }
    forall q | q in aggs ensures Contents(aggs)[q].count > 0 && QuarterIs(table, q, RowOf(Contents(aggs)[q])) {
      RolledQuarter(Contents(aggs), table, since, keys, q);
    }
    var rows, _ := UpsertMinutes(quarters, Contents(aggs));
    r := rows;
  }
}
