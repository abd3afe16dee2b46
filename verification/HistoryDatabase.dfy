/** The persistent tier as an object: what is pending in RAM, the tables, and the transactional flush. */
module HistoryDatabase {
  import opened Basics
  import opened HistoryRing
  import opened HistoryAggregates
  import opened HistoryTiers
  import opened HistoryTierTheorems
  import opened HistoryLedger
  import HistoryStore
  import Timeline = OutageTimeline

  datatype Event = Event(at: int, kind: string, detail: string)

  datatype EventRow = EventRow(ts: int, kind: string, detail: string)

  datatype Speedtest = Speedtest(at: int, down: real, up: real, latency: real)

  datatype SpeedtestRow = SpeedtestRow(ts: int, down: real, up: real, latency: real)

  const EVENT_LIMIT: nat := 10_000
  const OUTAGE_LIMIT: nat := 10_000
  const SPEEDTEST_LIMIT: nat := 500

  /** Where the call fails, if it does. */
  datatype Fault = NoFault | ReadingFails | BeginFails | TierFails | ListFails | CommitFails

  predicate SaneClock(now: int) { now >= YEAR_2025 }

  /** A time before 2025 is replaced by the time of the flush. */
  function Anchored(at: int, now: int): int { (if SaneClock(at) then at else now) / SECOND }

  function EventRows(items: seq<Event>, now: int): seq<EventRow> {
    seq(|items|, i requires 0 <= i < |items| => EventRow(Anchored(items[i].at, now), items[i].kind, items[i].detail))
  }

  function SpeedtestRows(items: seq<Speedtest>, now: int): seq<SpeedtestRow> {
    seq(|items|, i requires 0 <= i < |items| =>
      SpeedtestRow(Anchored(items[i].at, now), items[i].down, items[i].up, items[i].latency))
  }

  method InsertEvents(rows: seq<EventRow>, items: seq<Event>, now: int) returns (r: seq<EventRow>)
    ensures r == rows + EventRows(items, now)
  {
    r := rows;
    for i := 0 to |items|
      invariant r == rows + EventRows(items[..i], now)
    {
      var at := items[i].at;
      if !SaneClock(at) {
        at := now;
      }
      r := r + [EventRow(at / SECOND, items[i].kind, items[i].detail)];
    }
    assert items[..|items|] == items;
  }

  method InsertSpeedtests(rows: seq<SpeedtestRow>, items: seq<Speedtest>, now: int) returns (r: seq<SpeedtestRow>)
    ensures r == rows + SpeedtestRows(items, now)
  {
    r := rows;
    for i := 0 to |items|
      invariant r == rows + SpeedtestRows(items[..i], now)
    {
      var at := items[i].at;
      if !SaneClock(at) {
        at := now;
      }
      r := r + [SpeedtestRow(at / SECOND, items[i].down, items[i].up, items[i].latency)];
    }
    assert items[..|items|] == items;
  }

  /** The time a row gets: that of the event when it lies in 2025 or later, that of the flush otherwise. */
  predicate Stamped(ts: int, at: int, now: int) {
    if at >= 1_735_689_600_000_000_000 then ts == at / 1_000_000_000 else ts == now / 1_000_000_000
  }

  predicate EventStored(row: EventRow, e: Event, now: int) {
    row.kind == e.kind && row.detail == e.detail && Stamped(row.ts, e.at, now)
  }

  predicate SpeedtestStored(row: SpeedtestRow, t: Speedtest, now: int) {
    row.down == t.down && row.up == t.up && row.latency == t.latency && Stamped(row.ts, t.at, now)
  }

  /** The newest rows are those of what was pending, each in its place; the rows before them are the newest of the
      rows there were, and as many as fit. */
  predicate EventsStored(before: seq<EventRow>, after: seq<EventRow>, items: seq<Event>, now: int) {
    && |after| == (if |before| + |items| < 10_000 then |before| + |items| else 10_000) && |items| <= |after|
    && (forall i :: 0 <= i < |items| ==> EventStored(after[|after| - |items| + i], items[i], now))
    && after[..|after| - |items|] == before[|before| + |items| - |after|..]
  }

  predicate SpeedtestsStored(before: seq<SpeedtestRow>, after: seq<SpeedtestRow>, items: seq<Speedtest>, now: int) {
    && |after| == (if |before| + |items| < 500 then |before| + |items| else 500) && |items| <= |after|
    && (forall i :: 0 <= i < |items| ==> SpeedtestStored(after[|after| - |items| + i], items[i], now))
    && after[..|after| - |items|] == before[|before| + |items| - |after|..]
  }

  lemma EventRowIs(items: seq<Event>, now: int, i: nat)
    requires i < |items|
    ensures |EventRows(items, now)| == |items| && EventStored(EventRows(items, now)[i], items[i], now)
  {
  }

  lemma EventsAreStored(before: seq<EventRow>, items: seq<Event>, now: int)
    requires |items| <= EVENT_LIMIT
    ensures EventsStored(before, Suffix(before + EventRows(items, now), EVENT_LIMIT), items, now)
  {
    var rows := EventRows(items, now);
    var after := Suffix(before + rows, EVENT_LIMIT);
    NewestKept(before, rows, after, EVENT_LIMIT);
    assert |rows| == |items|;
    hide Suffix, EventStored, EventRows;
    forall i | 0 <= i < |items| ensures EventStored(after[|after| - |items| + i], items[i], now) {
      EventRowIs(items, now, i);
      assert after[|after| - |rows|..][i] == rows[i];
    }
  }

  lemma SpeedtestRowIs(items: seq<Speedtest>, now: int, i: nat)
    requires i < |items|
    ensures |SpeedtestRows(items, now)| == |items| && SpeedtestStored(SpeedtestRows(items, now)[i], items[i], now)
  {
  }

  lemma SpeedtestsAreStored(before: seq<SpeedtestRow>, items: seq<Speedtest>, now: int)
    requires |items| <= SPEEDTEST_LIMIT
    ensures SpeedtestsStored(before, Suffix(before + SpeedtestRows(items, now), SPEEDTEST_LIMIT), items, now)
  {
    var rows := SpeedtestRows(items, now);
    var after := Suffix(before + rows, SPEEDTEST_LIMIT);
    NewestKept(before, rows, after, SPEEDTEST_LIMIT);
    assert |rows| == |items|;
    hide Suffix, SpeedtestStored, SpeedtestRows;
    forall i | 0 <= i < |items| ensures SpeedtestStored(after[|after| - |items| + i], items[i], now) {
      SpeedtestRowIs(items, now, i);
      assert after[|after| - |rows|..][i] == rows[i];
    }
  }

  lemma NewestKept<T>(before: seq<T>, rows: seq<T>, after: seq<T>, limit: nat)
    requires |rows| <= limit && after == Suffix(before + rows, limit)
    ensures |after| == (if |before| + |rows| < limit then |before| + |rows| else limit) && |rows| <= |after|
    ensures after[|after| - |rows|..] == rows && after[..|after| - |rows|] == before[|before| + |rows| - |after|..]
  {
  }

  /** Bounding what waits and bounding what is stored by the same limit is the same as bounding the whole
      stream, so nothing within the limit is lost, doubled or moved. */
  lemma EventsConserved(written: seq<EventRow>, queued: seq<Event>, now: int, limit: nat)
    ensures Suffix(Suffix(written, limit) + EventRows(Suffix(queued, limit), now), limit)
         == Suffix(written + EventRows(queued, now), limit)
  {
    assert EventRows(Suffix(queued, limit), now) == Suffix(EventRows(queued, now), limit);
    SuffixOfSuffixes(written, Suffix(EventRows(queued, now), limit), limit);
    SuffixOfSuffixes(written, EventRows(queued, now), limit);
  }

  lemma SpeedtestsConserved(written: seq<SpeedtestRow>, queued: seq<Speedtest>, now: int, limit: nat)
    ensures Suffix(Suffix(written, limit) + SpeedtestRows(Suffix(queued, limit), now), limit)
         == Suffix(written + SpeedtestRows(queued, now), limit)
  {
    assert SpeedtestRows(Suffix(queued, limit), now) == Suffix(SpeedtestRows(queued, now), limit);
    SuffixOfSuffixes(written, Suffix(SpeedtestRows(queued, now), limit), limit);
    SuffixOfSuffixes(written, SpeedtestRows(queued, now), limit);
  }

  /** The outage table is right, within its bound, and complete while no more outages than that were flushed. */
  ghost predicate OutagesRight(rows: seq<OutageRow>, log: Log) {
    && Recorded(rows, log) && |rows| <= OUTAGE_LIMIT
    && (|Identities(log.flushed)| <= OUTAGE_LIMIT ==> Complete(rows, log))
  }

  lemma FewerBefore(before: seq<Timeline.Entry>, entries: seq<Timeline.Entry>)
    ensures |Identities(before)| <= |Identities(before + entries)|
  {
    var all := before + entries;
    assert forall i :: 0 <= i < |before| ==> all[i] == before[i];
    SubsetCount(Identities(before), Identities(all));
  }

  lemma OutagesStayRight(rows: seq<OutageRow>, log: Log, entries: seq<Timeline.Entry>)
    requires OutagesRight(rows, log)
    ensures OutagesRight(Flushed(rows, entries, OUTAGE_LIMIT), Trimmed(WriteAllLog(rows, log, entries)))
    ensures Trimmed(WriteAllLog(rows, log, entries)).flushed == log.flushed + entries
  {
    hide Recorded, Complete, Identities;
    WriteAllRecorded(rows, log, entries);
    FewerBefore(log.flushed, entries);
    var rows', log' := WriteAll(rows, entries), WriteAllLog(rows, log, entries);
    RowsBounded(rows', log');
    TrimRecorded(rows', log', OUTAGE_LIMIT);
  }

  ghost function Trimmed(log: Log): Log { log.(born := Suffix(log.born, OUTAGE_LIMIT)) }

  /** The tables after the tier part of a flush, over any window. */
  ghost predicate TiersRight(minutes: Table, quarters: Table, pruned: int) {
    AllSane(minutes) && AllSane(quarters) && QuartersRight(minutes, quarters, pruned)
  }

  lemma TiersStayRight(minutes: Table, quarters: Table, pruned: int, window: Window, m: map<Key, Agg>,
                       earliest: Option<int>, minutes': Table, quarters': Table)
    requires TiersRight(minutes, quarters, pruned) && Gathered(m, window) && Counted(m)
    requires minutes' == Upserted(minutes, m) && Earliest(m, earliest)
    requires if earliest.Some? then Rebuilt(minutes', quarters, quarters', Quarter(earliest.value)) else quarters' == quarters
    ensures TiersRight(minutes', quarters', pruned)
  {
    UpsertedSane(minutes, window, m);
    hide Gathered, Counted, AllSane, Rebuilt;
    if earliest.Some? {
      RebuiltSane(minutes', quarters, quarters', Quarter(earliest.value));
      forall q: Key | q in quarters && q.at >= Quarter(earliest.value) && q.at >= pruned ensures HasRows(minutes', q) {
        assert QuarterRight(minutes, quarters, q);
        HasRowsGrows(minutes, minutes', q);
      }
      RebuildRight(minutes, quarters, minutes', quarters', earliest.value, pruned);
    } else {
      assert minutes' == minutes;
    }
  }

  lemma TiersRetained(minutes: Table, quarters: Table, pruned: int, minuteCut: int, quarterCut: int)
    requires TiersRight(minutes, quarters, pruned)
    ensures TiersRight(Retained(minutes, minuteCut), Retained(quarters, quarterCut),
                       Latest(pruned, Latest(minuteCut, quarterCut)))
  {
    RetainRight(minutes, quarters, pruned, minuteCut, quarterCut);
  }

  lemma SaneFilled(table: Table)
    requires AllSane(table)
    ensures AllFilled(table)
  {
  }

  /** Quarter rows before every minute in the window outlive their minute rows; old ones are gone. */
  ghost predicate OldQuartersKept(before: Table, after: Table, window: Window, cut: int) {
    && (forall q :: q in after ==> q.at >= cut)
    && forall q: Key :: q.at >= cut && (forall k :: Values(window, k) != [] ==> q.at < Quarter(k.at)) ==> Same(before, after, q)
  }

  lemma KeptQuarters(m: map<Key, Agg>, window: Window, earliest: Option<int>, minutes': Table,
                     before: Table, after: Table, cut: int)
    requires Gathered(m, window) && Earliest(m, earliest)
    requires if earliest.Some? then Rebuilt(minutes', before, after, Quarter(earliest.value)) else after == before
    ensures OldQuartersKept(before, Retained(after, cut), window, cut)
  {
    hide QuarterIs, HasRows, Quarter, OfValues;
    if earliest.Some? {
      var k :| k in m && k.at == earliest.value;
      assert GatheredAt(m, window, k);
    }
  }

  /** The tier part of the transaction. */
  method WriteTiers(minutes: Table, quarters: Table, ghost pruned: int, ghost window: Window, aggs: map<Key, Agg>,
                    minuteCut: int, quarterCut: int) returns (minutes': Table, quarters': Table)
    requires TiersRight(minutes, quarters, pruned) && Gathered(aggs, window)
    ensures TiersRight(minutes', quarters', Latest(pruned, Latest(minuteCut, quarterCut)))
    ensures MinutesWritten(minutes, minutes', window, minuteCut)
    ensures OldQuartersKept(quarters, quarters', window, quarterCut)
  {
    hide OldQuartersKept, TiersRight, Gathered, MinutesWritten, Rebuilt, AllFilled, AllSane, Counted, Upserted, Earliest, Retained;
    GatheredCounted(aggs, window);
    var earliest;
    minutes', earliest := UpsertMinutes(minutes, aggs);
    MinutesAre(minutes, window, aggs, minuteCut);
    quarters' := quarters;
    if earliest.Some? {
      assert AllFilled(minutes') by {
        TiersFilled(minutes, quarters, pruned, window, aggs);
      }
      Floors(earliest.value);
      quarters' := RebuildQuarters(minutes', quarters, Quarter(earliest.value));
    }
    TiersStayRight(minutes, quarters, pruned, window, aggs, earliest, minutes', quarters');
    KeptQuarters(aggs, window, earliest, minutes', quarters, quarters', quarterCut);
    TiersRetained(minutes', quarters', pruned, minuteCut, quarterCut);
    minutes', quarters' := Retained(minutes', minuteCut), Retained(quarters', quarterCut);
  }

  lemma TiersFilled(minutes: Table, quarters: Table, pruned: int, window: Window, aggs: map<Key, Agg>)
    requires TiersRight(minutes, quarters, pruned) && Gathered(aggs, window) && Counted(aggs)
    ensures AllFilled(Upserted(minutes, aggs))
  {
    UpsertedSane(minutes, window, aggs);
    SaneFilled(Upserted(minutes, aggs));
  }

  lemma Emptied()
    ensures Suffix<Event>([], EVENT_LIMIT) == [] && Suffix<Speedtest>([], SPEEDTEST_LIMIT) == []
    ensures Suffix<Timeline.Entry>([], OUTAGE_LIMIT) == []
  {
  }

  /** `SELECT COALESCE(MAX(ts), 0) FROM minute`, where anything below zero counts as nothing. */
  method NewestMinute(minutes: Table) returns (latest: int)
    ensures latest >= 0 && (latest > 0 ==> exists k :: k in minutes && k.at == latest)
    ensures forall k :: k in minutes ==> k.at <= latest
  {
    latest := 0;
    var rest := minutes.Keys;
    while rest != {}
      invariant rest <= minutes.Keys && latest >= 0
      invariant latest > 0 ==> exists k :: k in minutes && k.at == latest
      invariant forall k :: k in minutes && k !in rest ==> k.at <= latest
      decreases |rest|
    {
      var k :| k in rest;
      rest := rest - {k};
      if k.at > latest {
        latest := k.at;
      }
    }
  }

  /** The tables, which change only at a commit. */
  datatype Tables = Tables(
    minutes: Table, quarters: Table, events: seq<EventRow>, outages: seq<OutageRow>, speedtests: seq<SpeedtestRow>)

  /** Everything added since the last commit, the rows of everything committed before, and how far the tiers
      have been pruned. */
  datatype Past = Past(
    events: seq<Event>, outages: seq<Timeline.Entry>, speedtests: seq<Speedtest>,
    writtenEvents: seq<EventRow>, writtenSpeedtests: seq<SpeedtestRow>, log: Log, pruned: int)

  const NOTHING := Past([], [], [], [], [], Log([], []), 0)

  predicate PendingRight(pending: seq<Event>, pendingOutages: seq<Timeline.Entry>, pendingSpeedtests: seq<Speedtest>, past: Past) {
    && pending == Suffix(past.events, EVENT_LIMIT)
    && pendingSpeedtests == Suffix(past.speedtests, SPEEDTEST_LIMIT)
    && pendingOutages == Suffix(past.outages, OUTAGE_LIMIT)
    && (forall i :: 0 <= i < |past.outages| ==> !past.outages[i].ongoing)
  }

  ghost predicate StoredRight(tables: Tables, past: Past) {
    && tables.events == Suffix(past.writtenEvents, EVENT_LIMIT)
    && tables.speedtests == Suffix(past.writtenSpeedtests, SPEEDTEST_LIMIT)
    && OutagesRight(tables.outages, past.log)
    && TiersRight(tables.minutes, tables.quarters, past.pruned)
  }

  /** The past after a commit. */
  ghost function Committed(past: Past, outages: seq<OutageRow>, now: int, minuteCut: int, quarterCut: int): Past {
    Past([], [], [], past.writtenEvents + EventRows(past.events, now),
         past.writtenSpeedtests + SpeedtestRows(past.speedtests, now),
         Trimmed(WriteAllLog(outages, past.log, Suffix(past.outages, OUTAGE_LIMIT))),
         Latest(past.pruned, Latest(minuteCut, quarterCut)))
  }

  lemma PendingBounded(pending: seq<Event>, pendingOutages: seq<Timeline.Entry>, pendingSpeedtests: seq<Speedtest>, past: Past)
    requires PendingRight(pending, pendingOutages, pendingSpeedtests, past)
    ensures |pending| <= EVENT_LIMIT && |pendingOutages| <= OUTAGE_LIMIT && |pendingSpeedtests| <= SPEEDTEST_LIMIT
  {
  }

  /** What the transaction does to the lists. */
  method WriteLists(tables: Tables, pending: seq<Event>, pendingOutages: seq<Timeline.Entry>,
                    pendingSpeedtests: seq<Speedtest>, ghost past: Past, now: int,
                    ghost minuteCut: int, ghost quarterCut: int)
    returns (events: seq<EventRow>, outages: seq<OutageRow>, speedtests: seq<SpeedtestRow>)
    requires PendingRight(pending, pendingOutages, pendingSpeedtests, past) && StoredRight(tables, past)
    ensures var past' := Committed(past, tables.outages, now, minuteCut, quarterCut);
            && events == Suffix(past'.writtenEvents, EVENT_LIMIT)
            && speedtests == Suffix(past'.writtenSpeedtests, SPEEDTEST_LIMIT)
            && outages == Flushed(tables.outages, pendingOutages, OUTAGE_LIMIT) && OutagesRight(outages, past'.log)
            && past'.log.flushed == past.log.flushed + pendingOutages
    ensures EventsStored(tables.events, events, pending, now) && SpeedtestsStored(tables.speedtests, speedtests, pendingSpeedtests, now)
  {
    PendingBounded(pending, pendingOutages, pendingSpeedtests, past);
    EventsAreStored(tables.events, pending, now);
    SpeedtestsAreStored(tables.speedtests, pendingSpeedtests, now);
    hide EventsStored, SpeedtestsStored;
    hide OutagesRight, TiersRight, Suffix;
    events := InsertEvents(tables.events, pending, now);
    outages := WriteOutages(tables.outages, pendingOutages);
    speedtests := InsertSpeedtests(tables.speedtests, pendingSpeedtests, now);
    EventsConserved(past.writtenEvents, past.events, now, EVENT_LIMIT);
    SpeedtestsConserved(past.writtenSpeedtests, past.speedtests, now, SPEEDTEST_LIMIT);
    OutagesStayRight(tables.outages, past.log, pendingOutages);
    events, outages := Suffix(events, EVENT_LIMIT), Suffix(outages, OUTAGE_LIMIT);
    speedtests := Suffix(speedtests, SPEEDTEST_LIMIT);
  }

  /** After a flush of a right table the duration of an outage is the longest ever flushed, given that it was
      before, if and only if the update found its row, or it was never flushed for longer. What waits is within the
      table's own bound. */
  lemma OutageFlushExact(rows: seq<OutageRow>, log: Log, entries: seq<Timeline.Entry>, id: Identity)
    requires OutagesRight(rows, log) && Truthful(rows, log.flushed, id) && |entries| <= OUTAGE_LIMIT
    ensures var rows', log' := Flushed(rows, entries, OUTAGE_LIMIT), Trimmed(WriteAllLog(rows, log, entries));
            OutagesRight(rows', log')
            && (Truthful(rows', log'.flushed, id) <==> KeepsLongest(rows, log.flushed, entries, id))
  {
    OutagesStayRight(rows, log, entries);
    FlushExact(rows, log.flushed, entries, id, OUTAGE_LIMIT);
  }

  /** A minute row that a flush wrote is exact over everything the RAM tier holds of that minute if and only if
      the window cuts nothing off it; the first flush cuts nothing. */
  lemma FlushedMinuteExact(before: Table, after: Table, ram: Window, since: Option<int>, cut: int, k: Key)
    requires MinutesWritten(before, after, ReadWindow(ram, since), cut)
    requires k.at >= cut && Values(ReadWindow(ram, since), k) != []
    ensures k in after && k.series in ram
    ensures Exact(after[k], Values(ram, k)) <==> since.None? || NoneCut(ram[k.series], since.value, k.at)
  {
    assert MinuteWritten(before, after, ReadWindow(ram, since), cut, k);
    hide Exact, InMinute, NoneCut, HistoryStore.Since;
    if since.Some? {
      MinuteExactIff(ram[k.series], since.value, k.at, after[k]);
    }
  }

  /** After a commit nothing is pending, and everything stored is right. */
  lemma CommittedRight(past: Past, before: seq<OutageRow>, tables: Tables, now: int, minuteCut: int, quarterCut: int)
    requires var past' := Committed(past, before, now, minuteCut, quarterCut);
             && tables.events == Suffix(past'.writtenEvents, EVENT_LIMIT) && OutagesRight(tables.outages, past'.log)
             && tables.speedtests == Suffix(past'.writtenSpeedtests, SPEEDTEST_LIMIT)
    requires TiersRight(tables.minutes, tables.quarters, Latest(past.pruned, Latest(minuteCut, quarterCut)))
    ensures var past' := Committed(past, before, now, minuteCut, quarterCut);
            PendingRight([], [], [], past') && StoredRight(tables, past')
  {
    hide OutagesRight, TiersRight, Trimmed, WriteAllLog, Latest, EventRows, SpeedtestRows;
  }

  lemma {:induction false} InMinuteHas(samples: seq<Sample>, i: nat, at: int)
    requires i < |samples| && samples[i].time >= YEAR_2025_SECONDS && Minute(samples[i].time) == at
    ensures samples[i].value in InMinute(samples, at)
  {
    if i < |samples| - 1 {
      InMinuteHas(samples[..|samples| - 1], i, at);
    }
  }

  lemma {:induction false} SinceHas(samples: seq<Sample>, i: nat, since: int) returns (j: nat)
    requires i < |samples| && samples[i].time * SECOND >= since
    ensures j < |HistoryStore.Since(samples, since)| && HistoryStore.Since(samples, since)[j] == samples[i]
  {
    var front := samples[..|samples| - 1];
    if i < |samples| - 1 {
      j := SinceHas(front, i, since);
    } else {
      j := |HistoryStore.Since(front, since)|;
    }
  }

  /** A sample the RAM tier holds, of any series, from 2025 on and not before the window, is in the row that a flush writes
      of its minute, unless that minute is beyond the retention. */
  lemma SampleWritten(before: Table, after: Table, ram: Window, since: Option<int>, cut: int, series: string, i: nat)
    requires MinutesWritten(before, after, ReadWindow(ram, since), cut)
    requires series in ram && i < |ram[series]| && ram[series][i].time >= 1_735_689_600
    requires since.Some? ==> ram[series][i].time * 1_000_000_000 >= since.value
    requires ram[series][i].time - ram[series][i].time % 60 >= cut
    ensures var x := ram[series][i]; var k := Key(series, x.time - x.time % 60);
            k in after && after[k].samples > 0 && after[k].min <= x.value <= after[k].max
  {
    var x := ram[series][i];
    var k := Key(series, Minute(x.time));
    var read := ReadWindow(ram, since)[series];
    if since.Some? {
      var j := SinceHas(ram[series], i, since.value);
      InMinuteHas(read, j, k.at);
    } else {
      InMinuteHas(read, i, k.at);
    }
    assert MinuteWritten(before, after, ReadWindow(ram, since), cut, k);
  }

  lemma AppendedSuffix<T>(items: seq<T>, item: T, limit: nat)
    requires 0 < limit && |items| <= limit
    ensures Suffix(items + [item], limit) == (if |items| < limit then items else items[1..]) + [item]
  {
  }

  class Database {
    var pending: seq<Event>
    var pendingOutages: seq<Timeline.Entry>
    var pendingSpeedtests: seq<Speedtest>
    var lastFlush: Option<int>
    var minuteRetention: int
    var quarterRetention: int
    var tables: Tables

    ghost var past: Past

    ghost predicate Valid()
      reads this
    {
      && PendingRight(pending, pendingOutages, pendingSpeedtests, past) && StoredRight(tables, past)
      && minuteRetention > 0 && quarterRetention > 0
    }

    /** A new, empty database. */
    constructor (minuteRetention: int, quarterRetention: int)
      ensures Valid() && lastFlush.None? && tables == Tables(map[], map[], [], [], []) && past == NOTHING
      ensures this.minuteRetention == if minuteRetention > 0 then minuteRetention else 7 * 86_400_000_000_000
      ensures this.quarterRetention == if quarterRetention > 0 then quarterRetention else 30 * 86_400_000_000_000
    {
      pending, pendingOutages, pendingSpeedtests, lastFlush := [], [], [], None;
      this.minuteRetention := if minuteRetention <= 0 then 7 * 24 * 3600 * SECOND else minuteRetention;
      this.quarterRetention := if quarterRetention <= 0 then 30 * 24 * 3600 * SECOND else quarterRetention;
      tables, past := Tables(map[], map[], [], [], []), NOTHING;
    }

    method SetRetention(minute: int, quarter: int)
      requires Valid()
      modifies this`minuteRetention, this`quarterRetention
      ensures Valid()
      ensures minuteRetention == if minute > 0 then minute else old(minuteRetention)
      ensures quarterRetention == if quarter > 0 then quarter else old(quarterRetention)
    {
      if minute > 0 {
        minuteRetention := minute;
      }
      if quarter > 0 {
        quarterRetention := quarter;
      }
    }

    method AddEvent(e: Event)
      requires Valid()
      modifies this`pending, this`past
      ensures Valid() && past == old(past).(events := old(past).events + [e])
      ensures pending == (if |old(pending)| < 10_000 then old(pending) else old(pending)[1..]) + [e]
    {
      PendingBounded(pending, pendingOutages, pendingSpeedtests, past);
      AppendedSuffix(pending, e, EVENT_LIMIT);
      hide StoredRight;
      StoredSame(tables, past, past.(events := past.events + [e]));
      SuffixOfSuffixes(past.events, [e], EVENT_LIMIT);
      pending := AppendBounded(pending, e, EVENT_LIMIT);
      past := past.(events := past.events + [e]);
    }

    method AddSpeedtest(result: Speedtest)
      requires Valid()
      modifies this`pendingSpeedtests, this`past
      ensures Valid() && past == old(past).(speedtests := old(past).speedtests + [result])
      ensures pendingSpeedtests == (if |old(pendingSpeedtests)| < 500 then old(pendingSpeedtests) else old(pendingSpeedtests)[1..]) + [result]
    {
      PendingBounded(pending, pendingOutages, pendingSpeedtests, past);
      AppendedSuffix(pendingSpeedtests, result, SPEEDTEST_LIMIT);
      hide StoredRight;
      StoredSame(tables, past, past.(speedtests := past.speedtests + [result]));
      SuffixOfSuffixes(past.speedtests, [result], SPEEDTEST_LIMIT);
      pendingSpeedtests := AppendBounded(pendingSpeedtests, result, SPEEDTEST_LIMIT);
      past := past.(speedtests := past.speedtests + [result]);
    }

    /** An ongoing outage is refused. */
    method SaveOutage(e: Timeline.Entry) returns (ok: bool)
      requires Valid()
      modifies this`pendingOutages, this`past
      ensures Valid() && ok == !e.ongoing
      ensures past == if ok then old(past).(outages := old(past).outages + [e]) else old(past)
      ensures ok ==> pendingOutages == (if |old(pendingOutages)| < 10_000 then old(pendingOutages) else old(pendingOutages)[1..]) + [e]
      ensures !ok ==> pendingOutages == old(pendingOutages)
    {
      PendingBounded(pending, pendingOutages, pendingSpeedtests, past);
      AppendedSuffix(pendingOutages, e, OUTAGE_LIMIT);
      hide StoredRight;
      if e.ongoing {
        return false;
      }
      StoredSame(tables, past, past.(outages := past.outages + [e]));
      SuffixOfSuffixes(past.outages, [e], OUTAGE_LIMIT);
      pendingOutages := AppendBounded(pendingOutages, e, OUTAGE_LIMIT);
      past := past.(outages := past.outages + [e]);
      ok := true;
    }

    function Since(): Option<int>
      reads this`lastFlush
    {
      if lastFlush.None? then None else Some(lastFlush.value - 60 * SECOND)
    }

    /** The next window begins a minute before the last flush, and so holds the whole of the minute it ran in. */
    lemma SinceMeans()
      ensures Since().None? <==> lastFlush.None?
      ensures lastFlush.Some? ==> Since() == Some(lastFlush.value - 60_000_000_000)
      ensures lastFlush.Some? ==> Since().value <= Minute(lastFlush.value / SECOND) * SECOND
    {
      if lastFlush.Some? {
        LastMinuteCovered(lastFlush.value);
      }
    }

    /** Nothing at all happens before 2025 or when a statement fails; otherwise everything pending is written
        at once and nothing stays pending. */
    method Flush(ram: Window, now: int, fault: Fault) returns (ok: bool)
      requires Valid()
      modifies this
      ensures Valid()
      ensures ok == (!SaneClock(now) || fault.NoFault?)
      ensures minuteRetention == old(minuteRetention) && quarterRetention == old(quarterRetention)
      ensures !SaneClock(now) || !ok ==> unchanged(this)
      ensures SaneClock(now) && ok ==>
                && lastFlush == Some(now)
                && past == Committed(old(past), old(tables.outages), now,
                                     (now - old(minuteRetention)) / SECOND, (now - old(quarterRetention)) / SECOND)
                && tables.outages == Flushed(old(tables.outages), old(pendingOutages), OUTAGE_LIMIT)
                && past.log.flushed == old(past).log.flushed + old(pendingOutages)
                && EventsStored(old(tables.events), tables.events, old(pending), now)
                && SpeedtestsStored(old(tables.speedtests), tables.speedtests, old(pendingSpeedtests), now)
                && pending == [] && pendingOutages == [] && pendingSpeedtests == []
                && MinutesWritten(old(tables.minutes), tables.minutes, ReadWindow(ram, old(Since())),
                                  (now - old(minuteRetention)) / SECOND)
                && OldQuartersKept(old(tables.quarters), tables.quarters, ReadWindow(ram, old(Since())),
                                   (now - old(quarterRetention)) / SECOND)
    {
      hide OldQuartersKept, TiersRight, OutagesRight, MinutesWritten, Gathered, ReadWindow, Suffix, EventRows, SpeedtestRows, Trimmed,
           WriteAllLog, Latest, Contents, EventsStored, SpeedtestsStored;
      assert TiersRight(tables.minutes, tables.quarters, past.pruned);
      hide PendingRight, StoredRight, Committed;
      if !SaneClock(now) {
        return true;
      }
      var since := Since();
      if fault.ReadingFails? {
        return false;
      }
      var aggs := Gather(ram, since);
      if fault.BeginFails? {
        return false;
      }
      var minuteCut, quarterCut := (now - minuteRetention) / SECOND, (now - quarterRetention) / SECOND;
      ghost var window := ReadWindow(ram, since);
      var minutes, quarters :=
        WriteTiers(tables.minutes, tables.quarters, past.pruned, window, Contents(aggs), minuteCut, quarterCut);
      if fault.TierFails? {
        return false;
      }
      var events, outages, speedtests :=
        WriteLists(tables, pending, pendingOutages, pendingSpeedtests, past, now, minuteCut, quarterCut);
      if fault.ListFails? || fault.CommitFails? {
        return false;
      }
      CommittedRight(past, tables.outages, Tables(minutes, quarters, events, outages, speedtests), now, minuteCut, quarterCut);
      past := Committed(past, tables.outages, now, minuteCut, quarterCut);
      tables := Tables(minutes, quarters, events, outages, speedtests);
      pending, pendingOutages, pendingSpeedtests, lastFlush := [], [], [], Some(now);
      ok := true;
    }

    /** Closing and opening again: the tables stay, what was pending is gone, and the next window starts from
        the newest minute row. */
    method Reopen()
      requires Valid()
      modifies this
      ensures Valid() && tables == old(tables) && pending == [] && pendingOutages == [] && pendingSpeedtests == []
      ensures past == old(past).(events := [], outages := [], speedtests := [])
      ensures minuteRetention == old(minuteRetention) && quarterRetention == old(quarterRetention)
      ensures match lastFlush
              case None => forall k :: k in tables.minutes ==> k.at <= 0
              case Some(t) => (exists k :: k in tables.minutes && k.at * SECOND == t)
                              && forall k :: k in tables.minutes ==> k.at * SECOND <= t
    {
      Emptied();
      hide StoredRight, Suffix;
      StoredSame(tables, past, past.(events := [], outages := [], speedtests := []));
      var latest := NewestMinute(tables.minutes);
      lastFlush := if latest > 0 then Some(latest * SECOND) else None;
      past := past.(events := [], outages := [], speedtests := []);
      pending, pendingOutages, pendingSpeedtests := [], [], [];
    }
  }

  lemma StoredSame(tables: Tables, past: Past, past': Past)
    requires StoredRight(tables, past) && past' == past.(events := past'.events, outages := past'.outages, speedtests := past'.speedtests)
    ensures StoredRight(tables, past')
  {
  }
}
