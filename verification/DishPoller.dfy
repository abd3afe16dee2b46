/** Reading the dish's history ring, and the high-water marks that keep every dish series in time order. */
module DishPoller {
  import opened Basics
  import opened HistoryRing
  import HistoryStore

  // ---------------------------------------------------------------- decoding

  /** The dish has written the samples of a stream round and round: sample k is in slot k mod n until it is
      overwritten. */
  predicate Holds(slots: seq<real>, stream: seq<real>) {
    slots != [] && forall k {:trigger stream[k]} :: |stream| - |slots| <= k < |stream| && 0 <= k ==> slots[k % |slots|] == stream[k]
  }

  /** Writing the next sample keeps it so. */
  lemma HoldsNext(slots: seq<real>, stream: seq<real>, x: real)
    requires Holds(slots, stream)
    ensures Holds(slots[|stream| % |slots| := x], stream + [x])
  {
    var n := |slots|;
    var next, longer := slots[|stream| % n := x], stream + [x];
    forall k | |longer| - n <= k < |longer| && 0 <= k ensures next[k % n] == longer[k] {
      if k < |stream| {
        ModApart(k, |stream|, n);
      }
    }
  }

  /** Where reading starts, and how many samples there are. */
  function Start(current: nat, n: nat): nat
    requires n > 0
  {
    if current >= n then current % n else 0
  }

  function Count(current: nat, n: nat): nat { if current < n then current else n }

  lemma SlotOf(current: nat, n: nat, i: nat)
    requires n > 0 && i < Count(current, n)
    ensures (Start(current, n) + i) % n == (current - Count(current, n) + i) % n
  {
    if current >= n {
      WrappedSlot(current / n, current % n, n, i);
      assert current == current / n * n + current % n;
    }
  }

  /** The i-th slot behind the one that is written next, r, holds the sample n before. */
  lemma WrappedSlot(q: nat, r: nat, n: nat, i: nat)
    requires r < n && i < n
    ensures (r + i) % n == (q * n + r - n + i) % n
  {
    assert (q - 1) * n == q * n - n;
    if r + i < n {
      ModOf(r + i, n, 0, r + i);
      ModOf(q * n + r - n + i, n, q - 1, r + i);
    } else {
      ModOf(r + i, n, 1, r + i - n);
      ModOf(q * n + r - n + i, n, q, r + i - n);
    }
  }

  method OrderedHistory(slots: seq<real>, current: nat, ghost stream: seq<real>) returns (result: seq<real>)
    ensures Holds(slots, stream) && current == |stream| ==> result == Suffix(stream, |slots|)
    ensures |result| == Count(current, |slots|)
    ensures forall x :: x in result ==> x in slots
  {
    if |slots| == 0 || current == 0 {
      return [];
    }
    var count := |slots|;
    if current < count {
      count := current;
    }
    var start := 0;
    if current >= |slots| {
      start := current % |slots|;
    }
    result := [];
    for i := 0 to count
      invariant |result| == i && forall x :: x in result ==> x in slots
      invariant Holds(slots, stream) && current == |stream| ==>
                  forall j :: 0 <= j < i ==> result[j] == stream[current - count + j]
    {
      SlotOf(current, |slots|, i);
      if Holds(slots, stream) && current == |stream| {
        assert slots[(current - count + i) % |slots|] == stream[current - count + i];
      }
      result := result + [slots[(start + i) % |slots|]];
    }
  }

  function Newest(slots: seq<real>, current: nat): Option<real> {
    if slots == [] || current == 0 then None else Some(slots[(current - 1) % |slots|])
  }

  method NewestHistoryValue(slots: seq<real>, current: nat, ghost stream: seq<real>) returns (newest: Option<real>)
    ensures newest == Newest(slots, current)
    ensures Holds(slots, stream) && current == |stream| ==>
              newest == if stream == [] then None else Some(stream[|stream| - 1])
  {
    if |slots| == 0 || current == 0 {
      return None;
    }
    var index := (current - 1) % |slots|;
    if Holds(slots, stream) && current == |stream| {
      assert slots[(current - 1) % |slots|] == stream[current - 1];
    }
    newest := Some(slots[index]);
  }

  // ---------------------------------------------------------------- high-water marks

  /** A point is accepted when it is later than the last accepted one. */
  function Accept(accepted: seq<Point>, p: Point): seq<Point> {
    if accepted != [] && p.time <= accepted[|accepted| - 1].time then accepted else accepted + [p]
  }

  function AcceptAll(accepted: seq<Point>, points: seq<Point>): seq<Point> {
    if points == [] then accepted else Accept(AcceptAll(accepted, points[..|points| - 1]), points[|points| - 1])
  }

  predicate Increasing(s: seq<Point>) { forall i, j :: 0 <= i < j < |s| ==> s[i].time < s[j].time }

  lemma AcceptIncreasing(accepted: seq<Point>, p: Point)
    requires Increasing(accepted)
    ensures Increasing(Accept(accepted, p))
  {
  }

  function StoredAll(s: seq<Point>): seq<Sample> { seq(|s|, i requires 0 <= i < |s| => Stored(s[i])) }

  lemma DivMonotone(a: int, b: int)
    requires a <= b
    ensures a / SECOND <= b / SECOND
  {
  }

  /** Strictly increasing times never look out of order to a ring that keeps whole seconds. */
  lemma StoredInOrder(s: seq<Point>)
    requires Increasing(s)
    ensures Nondecreasing(StoredAll(s))
  {
    forall i, j | 0 <= i < j < |s| ensures StoredAll(s)[i].time <= StoredAll(s)[j].time {
      DivMonotone(s[i].time, s[j].time);
    }
  }

  /** A point is later than everything accepted. */
  predicate Later(accepted: seq<Point>, p: Point) { accepted == [] || accepted[|accepted| - 1].time < p.time }

  lemma {:induction false} SkipsEarlier(accepted: seq<Point>, points: seq<Point>)
    requires forall i :: 0 <= i < |points| ==> !Later(accepted, points[i])
    ensures AcceptAll(accepted, points) == accepted
  {
    if points != [] {
      SkipsEarlier(accepted, points[..|points| - 1]);
      assert !Later(accepted, points[|points| - 1]);
    }
  }

  lemma LaterThanBoth(accepted: seq<Point>, points: seq<Point>, p: Point)
    requires Increasing(points + [p]) && Later(accepted, p)
    ensures Accept(accepted + points, p) == accepted + points + [p]
  {
    if points != [] {
      assert (points + [p])[|points| - 1].time < (points + [p])[|points|].time;
    }
  }

  lemma {:induction false} TakesLater(accepted: seq<Point>, points: seq<Point>)
    requires Increasing(points) && forall i :: 0 <= i < |points| ==> Later(accepted, points[i])
    ensures AcceptAll(accepted, points) == accepted + points
  {
    if points != [] {
      var front, last := points[..|points| - 1], points[|points| - 1];
      forall i | 0 <= i < |front| ensures Later(accepted, front[i]) {
        assert front[i] == points[i] && Later(accepted, points[i]);
      }
      TakesLater(accepted, front);
      assert points == front + [last] && Later(accepted, last);
      LaterThanBoth(accepted, front, last);
      assert accepted + points == (accepted + front) + [last];
    }
  }

  /** Of points in increasing order exactly those later than the last accepted one are accepted. */
  lemma AcceptsLater(accepted: seq<Point>, points: seq<Point>, skip: nat)
    requires Increasing(points) && skip <= |points|
    requires forall i :: 0 <= i < skip ==> !Later(accepted, points[i])
    requires forall i :: skip <= i < |points| ==> Later(accepted, points[i])
    ensures AcceptAll(accepted, points) == accepted + points[skip..]
  {
    SkipsEarlier(accepted, points[..skip]);
    TakesLater(accepted, points[skip..]);
    AcceptAllConcat(accepted, points[..skip], points[skip..]);
    assert points[..skip] + points[skip..] == points;
  }

  // ---------------------------------------------------------------- backfill

  /** One column of the dish's history: the series it belongs to and its slots. */
  datatype Column = Column(series: string, slots: seq<real>)

  /** The points of a column that the first `count` steps of a backfill offer. */
  function Offered(slots: seq<real>, current: nat, length: nat, now: int, count: nat): seq<Point>
    requires length > 0
  {
    if count == 0 then []
    else
      var index := (Start(current, length) + count - 1) % length;
      Offered(slots, current, length, now, count - 1)
      + if index < |slots| then [Point(now - (Count(current, length) - count) * SECOND, slots[index])] else []
  }

  /** What a backfill should deliver of a stream: its last samples, one second apart, the newest now. */
  function Delivered(stream: seq<real>, valid: nat, now: int): seq<Point>
    requires valid <= |stream|
  {
    seq(valid, i requires 0 <= i < valid => Point(now - (valid - 1 - i) * SECOND, stream[|stream| - valid + i]))
  }

  lemma {:induction false} OfferedDecodes(slots: seq<real>, stream: seq<real>, now: int, count: nat)
    requires Holds(slots, stream) && count <= Count(|stream|, |slots|)
    ensures Offered(slots, |stream|, |slots|, now, count)
         == Delivered(stream, Count(|stream|, |slots|), now)[..count]
  {
    if count > 0 {
      OfferedDecodes(slots, stream, now, count - 1);
      SlotOf(|stream|, |slots|, count - 1);
      var k := |stream| - Count(|stream|, |slots|) + count - 1;
      assert slots[k % |slots|] == stream[k];
    }
  }

  /** A full column offers exactly the last samples of its stream, oldest first. */
  lemma BackfillDecodes(slots: seq<real>, stream: seq<real>, now: int)
    requires Holds(slots, stream)
    ensures var valid := Count(|stream|, |slots|);
            && Offered(slots, |stream|, |slots|, now, valid) == Delivered(stream, valid, now)
            && Increasing(Delivered(stream, valid, now))
  {
    var valid := Count(|stream|, |slots|);
    OfferedDecodes(slots, stream, now, valid);
    assert Delivered(stream, valid, now)[..valid] == Delivered(stream, valid, now);
  }

  // ---------------------------------------------------------------- the poller

  /** The dish's answer to a history request. */
  datatype History = History(current: nat, others: seq<Column>, power: Column) {
    function Columns(): seq<Column> { others + [power] }
  }

  predicate DistinctSeries(columns: seq<Column>) {
    forall i, j :: 0 <= i < j < |columns| ==> columns[i].series != columns[j].series
  }

  /** The ring holds what was accepted, in strictly increasing time, up to the high-water mark. */
  ghost predicate SeriesRight(history: seq<Sample>, accepted: seq<Point>, mark: Option<int>) {
    && history == StoredAll(accepted) && Increasing(accepted)
    && mark == if accepted == [] then None else Some(accepted[|accepted| - 1].time)
  }

  lemma SeriesNext(history: seq<Sample>, accepted: seq<Point>, mark: Option<int>, p: Point)
    requires SeriesRight(history, accepted, mark)
    ensures if mark.Some? && p.time <= mark.value then Accept(accepted, p) == accepted
            else SeriesRight(history + [Stored(p)], Accept(accepted, p), Some(p.time))
  {
    AcceptIncreasing(accepted, p);
    StoredSnoc(accepted, p);
  }

  /** The points accepted so far of every series, after some more were offered to one of them. */
  ghost function Taken(accepted: map<string, seq<Point>>, series: string, points: seq<Point>): map<string, seq<Point>> {
    if series in accepted then accepted[series := AcceptAll(accepted[series], points)] else accepted
  }

  lemma TakenOne(accepted: map<string, seq<Point>>, series: string, p: Point)
    requires series in accepted
    ensures Taken(accepted, series, [p]) == accepted[series := Accept(accepted[series], p)]
  {
    assert [p][..0] == [];
    assert AcceptAll(accepted[series], [p]) == Accept(accepted[series], p);
  }

  lemma TakenNone(accepted: map<string, seq<Point>>, series: string)
    ensures Taken(accepted, series, []) == accepted
  {
  }

  function Slot(slots: seq<real>, index: nat, at: int): seq<Point> {
    if index < |slots| then [Point(at, slots[index])] else []
  }

  ghost function SlotTaken(accepted: map<string, seq<Point>>, columns: seq<Column>, index: nat, at: int): map<string, seq<Point>> {
    if columns == [] then accepted
    else
      var last := columns[|columns| - 1];
      Taken(SlotTaken(accepted, columns[..|columns| - 1], index, at), last.series, Slot(last.slots, index, at))
  }

  ghost function StepsTaken(accepted: map<string, seq<Point>>, columns: seq<Column>, current: nat, length: nat, now: int,
                            count: nat): map<string, seq<Point>>
    requires count <= Count(current, length)
  {
    if count == 0 then accepted
    else
      SlotTaken(StepsTaken(accepted, columns, current, length, now, count - 1), columns,
                (Start(current, length) + count - 1) % length, now - (Count(current, length) - count) * SECOND)
  }

  /** The length of the longest column. */
  function MaxLength(columns: seq<Column>): nat {
    if columns == [] then 0
    else
      var front, last := MaxLength(columns[..|columns| - 1]), columns[|columns| - 1];
      if |last.slots| > front then |last.slots| else front
  }

  /** Everything a backfill offers, and the fallback it leaves: the newest power sample when it is positive. */
  ghost function BackfillTaken(accepted: map<string, seq<Point>>, h: History, now: int): map<string, seq<Point>> {
    var length := MaxLength(h.Columns());
    StepsTaken(accepted, h.Columns(), h.current, length, now, Count(h.current, length))
  }

  function PowerAfter(before: Option<real>, h: History): Option<real> {
    var newest := Newest(h.power.slots, h.current);
    if newest.Some? && newest.value > 0.0 then newest else before
  }

  method LongestColumn(columns: seq<Column>) returns (length: nat)
    ensures length == MaxLength(columns)
    ensures forall c :: c in columns ==> |c.slots| <= length
  {
    length := 0;
    for i := 0 to |columns|
      invariant length == MaxLength(columns[..i]) && forall j :: 0 <= j < i ==> |columns[j].slots| <= length
    {
      assert columns[..i + 1][..i] == columns[..i];
      if |columns[i].slots| > length {
        length := |columns[i].slots|;
      }
    }
    assert columns[..|columns|] == columns;
  }

  lemma AcceptAllConcat(accepted: seq<Point>, a: seq<Point>, b: seq<Point>)
    ensures AcceptAll(accepted, a + b) == AcceptAll(AcceptAll(accepted, a), b)
  {
    if b == [] {
      assert a + b == a;
    } else {
      AcceptAllConcat(accepted, a, b[..|b| - 1]);
      assert (a + b)[..|a + b| - 1] == a + b[..|b| - 1];
    }
  }

  lemma {:induction false} SlotOther(accepted: map<string, seq<Point>>, columns: seq<Column>, index: nat, at: int, n: string)
    requires n in accepted && forall i :: 0 <= i < |columns| ==> columns[i].series != n
    ensures n in SlotTaken(accepted, columns, index, at) && SlotTaken(accepted, columns, index, at)[n] == accepted[n]
  {
    if columns != [] {
      SlotOther(accepted, columns[..|columns| - 1], index, at, n);
    }
  }

  lemma {:induction false} SlotOwn(accepted: map<string, seq<Point>>, columns: seq<Column>, index: nat, at: int, c: nat)
    requires DistinctSeries(columns) && c < |columns| && columns[c].series in accepted
    ensures columns[c].series in SlotTaken(accepted, columns, index, at)
    ensures SlotTaken(accepted, columns, index, at)[columns[c].series]
         == AcceptAll(accepted[columns[c].series], Slot(columns[c].slots, index, at))
  {
    var front := columns[..|columns| - 1];
    if c < |columns| - 1 {
      SlotOwn(accepted, front, index, at, c);
    } else {
      SlotOther(accepted, front, index, at, columns[c].series);
    }
  }

  /** A backfill offers each column its own points, whatever the other columns hold. */
  lemma {:induction false} StepsOwn(accepted: map<string, seq<Point>>, columns: seq<Column>, current: nat, length: nat, now: int,
                                    count: nat, c: nat)
    requires DistinctSeries(columns) && c < |columns| && columns[c].series in accepted
    requires length > 0 && count <= Count(current, length)
    ensures var r := StepsTaken(accepted, columns, current, length, now, count);
            columns[c].series in r
            && r[columns[c].series] == AcceptAll(accepted[columns[c].series], Offered(columns[c].slots, current, length, now, count))
  {
    if count > 0 {
      var slots := columns[c].slots;
      var index, at := (Start(current, length) + count - 1) % length, now - (Count(current, length) - count) * SECOND;
      StepsOwn(accepted, columns, current, length, now, count - 1, c);
      StepTaken(accepted, columns, current, length, now, count);
      StepOffered(slots, current, length, now, count);
      hide StepsTaken, Offered, SlotTaken, Start, Count, Slot, DistinctSeries, AcceptAll;
      SlotOwn(StepsTaken(accepted, columns, current, length, now, count - 1), columns, index, at, c);
      AcceptAllConcat(accepted[columns[c].series], Offered(slots, current, length, now, count - 1), Slot(slots, index, at));
    }
  }

  lemma StepTaken(accepted: map<string, seq<Point>>, columns: seq<Column>, current: nat, length: nat, now: int, count: nat)
    requires 0 < count <= Count(current, length) && length > 0
    ensures StepsTaken(accepted, columns, current, length, now, count)
         == SlotTaken(StepsTaken(accepted, columns, current, length, now, count - 1), columns,
                      (Start(current, length) + count - 1) % length, now - (Count(current, length) - count) * SECOND)
  {
    hide SlotTaken, Start;
  }

  lemma StepOffered(slots: seq<real>, current: nat, length: nat, now: int, count: nat)
    requires count > 0 && length > 0
    ensures Offered(slots, current, length, now, count)
         == Offered(slots, current, length, now, count - 1)
            + Slot(slots, (Start(current, length) + count - 1) % length, now - (Count(current, length) - count) * SECOND)
  {
    hide Start, Count;
  }

  lemma {:induction false} MaxLengthIs(columns: seq<Column>, n: nat)
    requires forall i :: 0 <= i < |columns| ==> |columns[i].slots| <= n
    requires exists i :: 0 <= i < |columns| && |columns[i].slots| == n
    ensures MaxLength(columns) == n
  {
    var front, last := columns[..|columns| - 1], columns[|columns| - 1];
    if i :| 0 <= i < |front| && |columns[i].slots| == n {
      assert front[i] == columns[i];
      MaxLengthIs(front, n);
    } else {
      MaxLengthAtMost(front, n);
    }
  }

  lemma {:induction false} MaxLengthAtMost(columns: seq<Column>, n: nat)
    requires forall i :: 0 <= i < |columns| ==> |columns[i].slots| <= n
    ensures MaxLength(columns) <= n
  {
    if columns != [] {
      MaxLengthAtMost(columns[..|columns| - 1], n);
    }
  }

  /** A column as long as any adds exactly those of its stream's last samples that are later than everything
      accepted before, one second apart and oldest first. */
  lemma BackfillAdds(accepted: map<string, seq<Point>>, h: History, stream: seq<real>, now: int, c: nat, skip: nat)
    requires DistinctSeries(h.Columns()) && c < |h.Columns()| && h.Columns()[c].series in accepted
    requires forall i :: 0 <= i < |h.Columns()| ==> |h.Columns()[i].slots| <= |h.Columns()[c].slots|
    requires Holds(h.Columns()[c].slots, stream) && h.current == |stream|
    requires var last := Delivered(stream, Count(|stream|, |h.Columns()[c].slots|), now);
             skip <= |last| && (forall i :: 0 <= i < skip ==> !Later(accepted[h.Columns()[c].series], last[i]))
             && (forall i :: skip <= i < |last| ==> Later(accepted[h.Columns()[c].series], last[i]))
    ensures var n, series := |h.Columns()[c].slots|, h.Columns()[c].series;
            var r := BackfillTaken(accepted, h, now);
            series in r && r[series] == accepted[series] + Delivered(stream, Count(|stream|, n), now)[skip..]
  {
    var columns := h.Columns();
    var n := |columns[c].slots|;
    MaxLengthIs(columns, n);
    StepsOwn(accepted, columns, |stream|, n, now, Count(|stream|, n), c);
    BackfillDecodes(columns[c].slots, stream, now);
    AcceptsLater(accepted[columns[c].series], Delivered(stream, Count(|stream|, n), now), skip);
  }

  /** The dish's answer, column by column, with the series each goes to. */
  function Answered(current: nat, latency: seq<real>, drop: seq<real>, down: seq<real>, up: seq<real>, power: seq<real>): History {
    History(current, [Column("latency_ms", latency), Column("drop_rate", drop), Column("dish_down_bps", down),
                      Column("dish_up_bps", up)], Column("power_w", power))
  }

  lemma AnsweredColumns(current: nat, latency: seq<real>, drop: seq<real>, down: seq<real>, up: seq<real>, power: seq<real>)
    ensures var columns := Answered(current, latency, drop, down, up, power).Columns();
            && |columns| == 5 && DistinctSeries(columns)
            && columns[0] == Column("latency_ms", latency) && columns[1] == Column("drop_rate", drop)
            && columns[2] == Column("dish_down_bps", down) && columns[3] == Column("dish_up_bps", up)
            && columns[4] == Column("power_w", power)
  {
    SeriesApart();
  }

  lemma SeriesApart()
    ensures "latency_ms" != "drop_rate" && "latency_ms" != "dish_down_bps" && "latency_ms" != "dish_up_bps" && "latency_ms" != "power_w"
    ensures "drop_rate" != "dish_down_bps" && "drop_rate" != "dish_up_bps" && "drop_rate" != "power_w"
    ensures "dish_down_bps" != "dish_up_bps" && "dish_down_bps" != "power_w" && "dish_up_bps" != "power_w"
  {
    assert "latency_ms"[0] == 'l' && "drop_rate"[1] == 'r' && "power_w"[0] == 'p' && "dish_down_bps"[1] == 'i';
    assert |"dish_down_bps"| == 13 && |"dish_up_bps"| == 11 && "dish_up_bps"[1] == 'i' && "drop_rate"[0] == 'd';
  }

  /** A column as long as the others, of a series nothing was accepted of before, delivers its whole stream. */
  lemma FreshColumn(accepted: map<string, seq<Point>>, h: History, stream: seq<real>, now: int, c: nat)
    requires DistinctSeries(h.Columns()) && c < |h.Columns()| && h.current == |stream|
    requires forall i :: 0 <= i < |h.Columns()| ==> |h.Columns()[i].slots| == |h.Columns()[c].slots|
    requires Holds(h.Columns()[c].slots, stream)
    requires h.Columns()[c].series in accepted && accepted[h.Columns()[c].series] == []
    ensures var r := BackfillTaken(accepted, h, now);
            h.Columns()[c].series in r
            && r[h.Columns()[c].series] == Delivered(stream, Count(|stream|, |h.Columns()[c].slots|), now)
  {
    BackfillAdds(accepted, h, stream, now, c, 0);
    hide BackfillTaken, Holds;
    var last := Delivered(stream, Count(|stream|, |h.Columns()[c].slots|), now);
    assert [] + last[0..] == last;
  }

  /** The first backfill fills the five series, each from its own column. */
  lemma FirstBackfill(accepted: map<string, seq<Point>>, streams: seq<seq<real>>, slots: seq<seq<real>>, current: nat, n: nat, now: int)
    requires |streams| == |slots| == 5 && forall i :: 0 <= i < 5 ==> |slots[i]| == n && Holds(slots[i], streams[i]) && |streams[i]| == current
    requires forall s :: s in {"latency_ms", "drop_rate", "dish_down_bps", "dish_up_bps", "power_w"} ==> s in accepted && accepted[s] == []
    ensures var r := BackfillTaken(accepted, Answered(current, slots[0], slots[1], slots[2], slots[3], slots[4]), now);
            && "latency_ms" in r && r["latency_ms"] == Delivered(streams[0], Count(current, n), now)
            && "drop_rate" in r && r["drop_rate"] == Delivered(streams[1], Count(current, n), now)
            && "dish_down_bps" in r && r["dish_down_bps"] == Delivered(streams[2], Count(current, n), now)
            && "dish_up_bps" in r && r["dish_up_bps"] == Delivered(streams[3], Count(current, n), now)
            && "power_w" in r && r["power_w"] == Delivered(streams[4], Count(current, n), now)
  {
    var h := Answered(current, slots[0], slots[1], slots[2], slots[3], slots[4]);
    AnsweredColumns(current, slots[0], slots[1], slots[2], slots[3], slots[4]);
    hide BackfillTaken, Answered, History.Columns, DistinctSeries, Holds, Delivered;
    assert forall i :: 0 <= i < 5 ==> h.Columns()[i].slots == slots[i];
    FreshColumn(accepted, h, streams[0], now, 0);
    FreshColumn(accepted, h, streams[1], now, 1);
    FreshColumn(accepted, h, streams[2], now, 2);
    FreshColumn(accepted, h, streams[3], now, 3);
    FreshColumn(accepted, h, streams[4], now, 4);
  }

  /** The fallback is the newest power sample of the stream, unless there is none or it is not positive. */
  lemma PowerMeans(before: Option<real>, h: History, stream: seq<real>)
    requires Holds(h.power.slots, stream) && h.current == |stream|
    ensures PowerAfter(before, h) == if stream != [] && stream[|stream| - 1] > 0.0 then Some(stream[|stream| - 1]) else before
  {
    if stream != [] {
      assert h.power.slots[(|stream| - 1) % |h.power.slots|] == stream[|stream| - 1];
    }
  }

  ghost predicate AllRight(own: set<string>, rings: map<string, seq<Sample>>, accepted: map<string, seq<Point>>,
                           highWater: map<string, int>)
  {
    && rings.Keys == own && accepted.Keys == own && highWater.Keys <= own
    && forall n :: n in own ==> SeriesRight(rings[n], accepted[n], Mark(highWater, n))
  }

  function Mark(highWater: map<string, int>, n: string): Option<int> {
    if n in highWater then Some(highWater[n]) else None
  }

  lemma AllNext(own: set<string>, rings: map<string, seq<Sample>>, accepted: map<string, seq<Point>>,
                highWater: map<string, int>, n: string, p: Point)
    requires AllRight(own, rings, accepted, highWater) && n in own
    ensures n in rings && n in accepted
    ensures if n in highWater && p.time <= highWater[n] then accepted[n := Accept(accepted[n], p)] == accepted
            else AllRight(own, rings[n := rings[n] + [Stored(p)]], accepted[n := Accept(accepted[n], p)], highWater[n := p.time])
  {
    SeriesNext(rings[n], accepted[n], Mark(highWater, n), p);
    hide SeriesRight, Accept;
  }

  lemma AllNew(own: set<string>, rings: map<string, seq<Sample>>)
    requires rings.Keys == own && forall n :: n in own ==> rings[n] == []
    ensures AllRight(own, rings, map n | n in own :: [], map[])
  {
  }

  lemma AllInOrder(own: set<string>, rings: map<string, seq<Sample>>, accepted: map<string, seq<Point>>,
                   highWater: map<string, int>, n: string)
    requires AllRight(own, rings, accepted, highWater) && n in own
    ensures Nondecreasing(rings[n])
  {
    assert SeriesRight(rings[n], accepted[n], Mark(highWater, n));
    StoredInOrder(accepted[n]);
  }

  class Poller {
    const store: HistoryStore.Store
    /** The series only this poller writes. */
    const own: set<string>
    var highWater: map<string, int>
    var backfillDone: bool
    /** The power to report when the dish's status has none. */
    var historyPower: Option<real>

    /** The points accepted so far, by series. */
    ghost var accepted: map<string, seq<Point>>

    ghost predicate Valid()
      reads this`highWater, this`accepted, store, store.Parts()
    {
      store.Valid() && this !in store.Parts() && own <= store.series.Keys && AllRight(own, Rings(), accepted, highWater)
    }

    /** What the store holds of the series of others. */
    ghost function Others(): map<string, seq<Sample>>
      reads store, store.Parts()
    {
      map n | n in store.series && n !in own :: store.series[n].history
    }

    ghost function Rings(): map<string, seq<Sample>>
      reads store, store.Parts()
      requires own <= store.series.Keys
    {
      map n | n in own :: store.series[n].history
    }

    constructor (store: HistoryStore.Store, own: set<string>)
      requires store.Valid() && own <= store.series.Keys
      requires forall n :: n in own ==> store.series[n].history == []
      ensures Valid() && this.store == store && this.own == own && accepted == map n | n in own :: []
      ensures !backfillDone && historyPower.None?
    {
      this.store, this.own, highWater := store, own, map[];
      backfillDone, historyPower := false, None;
      accepted := map n | n in own :: [];
      hide HistoryStore.Store.Valid, AllRight;
      ghost var rings: map<string, seq<Sample>> := map n | n in own :: store.series[n].history;
      AllNew(own, rings);
      new;
      assert this !in store.Parts();
      hide HistoryStore.Store.Parts;
      assert Rings() == rings;
    }

    method Forward(series: string, p: Point) returns (known: bool)
      requires store.Valid() && this !in store.Parts() && own <= store.series.Keys && series in own
      modifies store.Parts() - {store}
      ensures known && store.Valid()
      ensures Rings() == old(Rings())[series := old(Rings())[series] + [Stored(p)]] && Others() == old(Others())
    {
      hide HistoryStore.Store.Valid, HistoryStore.Store.Parts, Stored;
      ghost var before := Rings();
      known := store.Append(series, p);
      assert forall n :: n in own && n != series ==> store.series[n].history == before[n];
      assert store.series[series].history == before[series] + [Stored(p)];
    }

    /** A point is passed on when it is later than the series' high-water mark. */
    method Append(series: string, at: int, value: real)
      requires Valid() && series in own
      modifies this`highWater, this`accepted, store.Parts() - {store}
      ensures Valid()
      ensures accepted == Taken(old(accepted), series, [Point(at, value)]) && Others() == old(Others())
    {
      hide AllRight, Accept, Others, Rings, HistoryStore.Store.Valid, HistoryStore.Store.Parts, Stored;
      ghost var p := Point(at, value);
      AllNext(own, Rings(), accepted, highWater, series, p);
      TakenOne(accepted, series, p);
      if series in highWater && at <= highWater[series] {
        return;
      }
      var known := Forward(series, Point(at, value));
      if known {
        highWater := highWater[series := at];
      }
      accepted := accepted[series := Accept(accepted[series], p)];
    }

    method AppendIndex(series: string, at: int, slots: seq<real>, index: nat)
      requires Valid() && series in own
      modifies this`highWater, this`accepted, store.Parts() - {store}
      ensures Valid()
      ensures accepted == Taken(old(accepted), series, Slot(slots, index, at)) && Others() == old(Others())
    {
      hide Valid, Others, Taken, HistoryStore.Store.Parts;
      TakenNone(accepted, series);
      if index < |slots| {
        Append(series, at, slots[index]);
      }
    }

    /** One step of a backfill: the same slot of every column. */
    method BackfillSlot(columns: seq<Column>, index: nat, at: int)
      requires Valid() && forall c :: c in columns ==> c.series in own
      modifies this`highWater, this`accepted, store.Parts() - {store}
      ensures Valid()
      ensures accepted == SlotTaken(old(accepted), columns, index, at) && Others() == old(Others())
    {
      hide Valid, Others, Taken, HistoryStore.Store.Parts;
      for i := 0 to |columns|
        invariant Valid() && Others() == old(Others())
        invariant accepted == SlotTaken(old(accepted), columns[..i], index, at)
      {
        assert columns[..i + 1][..i] == columns[..i];
        AppendIndex(columns[i].series, at, columns[i].slots, index);
      }
      assert columns[..|columns|] == columns;
    }

    /** Every slot that holds a sample, of every column, oldest first. */
    method BackfillColumns(now: int, current: nat, columns: seq<Column>, length: nat)
      requires Valid() && forall c :: c in columns ==> c.series in own
      modifies this`highWater, this`accepted, store.Parts() - {store}
      ensures Valid() && Others() == old(Others())
      ensures accepted == StepsTaken(old(accepted), columns, current, length, now, Count(current, length))
    {
      hide Valid, Others, SlotTaken, HistoryStore.Store.Parts;
      var valid := if current < length then current else length;
      if valid > 0 && length > 0 {
        var start := 0;
        if current >= length {
          start := current % length;
        }
        for offset := 0 to valid
          invariant Valid() && Others() == old(Others())
          invariant accepted == StepsTaken(old(accepted), columns, current, length, now, offset)
        {
          var index := (start + offset) % length;
          var at := now - (valid - 1 - offset) * SECOND;
          BackfillSlot(columns, index, at);
        }
      }
    }

    /** Reads the dish's history into the store, unless the clock is not believed or the call failed. */
    method Backfill(now: int, response: Option<History>)
      requires Valid()
      requires response.Some? ==> forall c :: c in response.value.Columns() ==> c.series in own
      modifies this`highWater, this`accepted, this`backfillDone, this`historyPower, store.Parts() - {store}
      ensures Valid() && Others() == old(Others())
      ensures now < YEAR_2025 || response.None? ==>
                accepted == old(accepted) && backfillDone == old(backfillDone) && historyPower == old(historyPower)
      ensures now >= YEAR_2025 && response.Some? ==>
                && backfillDone && accepted == BackfillTaken(old(accepted), response.value, now)
                && historyPower == PowerAfter(old(historyPower), response.value)
    {
      hide HistoryStore.Store.Parts, HistoryStore.Store.Valid, AllRight, Rings, Others, StepsTaken, MaxLength, PowerAfter;
      if now < YEAR_2025 || response.None? {
        return;
      }
      PartsExist();
      var length := LongestColumn(response.value.Columns());
      BackfillColumns(now, response.value.current, response.value.Columns(), length);
      backfillDone := true;
      SetPowerFallback(response.value);
    }

    lemma PartsExist()
      ensures forall o :: o in store.Parts() ==> allocated(o)
    {
    }

    method SetPowerFallback(h: History)
      modifies this`historyPower
      ensures historyPower == PowerAfter(old(historyPower), h)
    {
      var newest := NewestHistoryValue(h.power.slots, h.current, []);
      if newest.Some? && newest.value > 0.0 {
        historyPower := newest;
      }
    }

    /** A ring this poller writes never takes its times to be out of order. */
    lemma StaysOrdered(n: string)
      requires Valid() && n in own
      ensures store.series[n].ordered
    {
      AllInOrder(own, Rings(), accepted, highWater, n);
      assert store.series[n].Valid();
    }
  }

  lemma StoredSnoc(s: seq<Point>, p: Point)
    ensures StoredAll(s + [p]) == StoredAll(s) + [Stored(p)]
  {
  }
}
