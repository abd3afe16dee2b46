/** The bounded lists and the outage table of the persistent store, and what they keep over all flushes. */
module HistoryLedger {
  import opened Basics
  import opened HistoryRing
  import Timeline = OutageTimeline

  // ---------------------------------------------------------------- bounded lists

  /** Keeps the newest `limit` items. */
  method AppendBounded<T>(items: seq<T>, item: T, limit: nat) returns (r: seq<T>)
    requires limit >= 1
    ensures r == Suffix(items + [item], limit)
  {
    var kept := items;
    if |items| >= limit {
      kept := items[|items| - limit + 1..];
      kept := kept[..limit - 1];
    }
    r := kept + [item];
  }

  /** Bounding the front, or the back, first changes nothing. */
  lemma SuffixOfSuffixes<T>(a: seq<T>, b: seq<T>, n: nat)
    ensures Suffix(Suffix(a, n) + b, n) == Suffix(a + b, n)
    ensures Suffix(a + Suffix(b, n), n) == Suffix(a + b, n)
  {
    SuffixOfFront(a, b, n);
    SuffixOfBack(a, b, n);
  }

  lemma SuffixOfConcat<T>(a: seq<T>, b: seq<T>, n: nat)
    ensures Suffix(a + b, n) == if n <= |b| then Suffix(b, n) else Suffix(a, n - |b|) + b
  {
  }

  lemma SuffixOfSuffix<T>(s: seq<T>, n: nat, m: nat)
    ensures Suffix(Suffix(s, n), m) == Suffix(s, if m <= n then m else n)
  {
  }

  lemma SuffixOfFront<T>(a: seq<T>, b: seq<T>, n: nat)
    ensures Suffix(Suffix(a, n) + b, n) == Suffix(a + b, n)
  {
    hide Suffix;
    SuffixOfConcat(Suffix(a, n), b, n);
    SuffixOfConcat(a, b, n);
    if |b| < n {
      SuffixOfSuffix(a, n, n - |b|);
    }
  }

  lemma SuffixOfBack<T>(a: seq<T>, b: seq<T>, n: nat)
    ensures Suffix(a + Suffix(b, n), n) == Suffix(a + b, n)
  {
    assert |b| <= n ==> Suffix(b, n) == b;
    assert |b| > n ==> |Suffix(b, n)| == n;
    hide Suffix;
    SuffixOfConcat(a, Suffix(b, n), n);
    SuffixOfConcat(a, b, n);
    SuffixOfSuffix(b, n, n);
  }

  // ---------------------------------------------------------------- outage rows

  datatype Identity = Identity(source: Timeline.Source, cause: string, start: int)

  datatype OutageRow = OutageRow(id: Identity, duration: int)

  function IdOf(e: Timeline.Entry): Identity { Identity(e.source, e.cause, e.start) }

  function Longer(a: int, b: int): int { if a >= b then a else b }

  predicate HasId(rows: seq<OutageRow>, id: Identity) { exists i :: 0 <= i < |rows| && rows[i].id == id }

  /** `UPDATE outages SET duration_ns = MAX(duration_ns, ?) WHERE …`, on every row it selects. */
  function Raised(rows: seq<OutageRow>, e: Timeline.Entry): seq<OutageRow> {
    seq(|rows|, i requires 0 <= i < |rows| =>
      if rows[i].id == IdOf(e) then OutageRow(rows[i].id, Longer(rows[i].duration, e.duration)) else rows[i])
  }

  /** Update, or insert when nothing was updated. */
  function Write(rows: seq<OutageRow>, e: Timeline.Entry): seq<OutageRow> {
    if HasId(rows, IdOf(e)) then Raised(rows, e) else rows + [OutageRow(IdOf(e), e.duration)]
  }

  function WriteAll(rows: seq<OutageRow>, entries: seq<Timeline.Entry>): seq<OutageRow> {
    if entries == [] then rows else Write(WriteAll(rows, entries[..|entries| - 1]), entries[|entries| - 1])
  }

  method WriteOutages(rows: seq<OutageRow>, entries: seq<Timeline.Entry>) returns (r: seq<OutageRow>)
    ensures r == WriteAll(rows, entries)
  {
    r := rows;
    for i := 0 to |entries|
      invariant r == WriteAll(rows, entries[..i])
    {
      assert entries[..i + 1][..i] == entries[..i];
      r := Write(r, entries[i]);
    }
    assert entries[..|entries|] == entries;
  }

  /** A row of this outage that is at least as long as the entry says. */
  predicate Covers(row: OutageRow, e: Timeline.Entry) {
    row.id.source == e.source && row.id.cause == e.cause && row.id.start == e.start && row.duration >= e.duration
  }

  lemma WriteCovers(rows: seq<OutageRow>, e: Timeline.Entry)
    ensures exists k :: 0 <= k < |Write(rows, e)| && Covers(Write(rows, e)[k], e)
    ensures |rows| <= |Write(rows, e)|
    ensures forall k :: 0 <= k < |rows| ==> Write(rows, e)[k].id == rows[k].id && Write(rows, e)[k].duration >= rows[k].duration
  {
    if HasId(rows, IdOf(e)) {
      var k :| 0 <= k < |rows| && rows[k].id == IdOf(e);
      assert Covers(Write(rows, e)[k], e);
    } else {
      assert Covers(Write(rows, e)[|rows|], e);
    }
  }

  /** Every entry is written: there is a row of its source, cause and start, and it is at least as long. */
  lemma {:induction false} EntriesWritten(rows: seq<OutageRow>, entries: seq<Timeline.Entry>, i: nat)
    requires i < |entries|
    ensures exists k :: 0 <= k < |WriteAll(rows, entries)| && Covers(WriteAll(rows, entries)[k], entries[i])
  {
    var n := |entries| - 1;
    var before, all := WriteAll(rows, entries[..n]), WriteAll(rows, entries);
    WriteCovers(before, entries[n]);
    assert all == Write(before, entries[n]);
    hide Write, WriteAll;
    if i < n {
      EntriesWritten(rows, entries[..n], i);
      var k :| 0 <= k < |before| && Covers(before[k], entries[..n][i]);
      assert Covers(all[k], entries[i]);
    }
  }

  /** Everything flushed so far, and for every row the position of the flushed entry that inserted it. */
  datatype Log = Log(flushed: seq<Timeline.Entry>, born: seq<nat>)

  /** The longest duration flushed for an outage. */
  function Longest(entries: seq<Timeline.Entry>, id: Identity): Option<int> {
    if entries == [] then None
    else
      var front, last := Longest(entries[..|entries| - 1], id), entries[|entries| - 1];
      if IdOf(last) != id then front
      else Some(if front.Some? then Longer(front.value, last.duration) else last.duration)
  }

  predicate InBirthOrder(born: seq<nat>, n: nat) {
    && (forall i :: 0 <= i < |born| ==> born[i] < n)
    && (forall i, j :: 0 <= i < j < |born| ==> born[i] < born[j])
  }

  predicate OneRowEach(rows: seq<OutageRow>) { forall i, j :: 0 <= i < j < |rows| ==> rows[i].id != rows[j].id }

  predicate RowRight(row: OutageRow, flushed: seq<Timeline.Entry>, from: nat)
    requires from < |flushed|
  {
    row.id == IdOf(flushed[from]) && Longest(flushed[from..], row.id) == Some(row.duration)
  }

  /** Each outage has at most one row, and its duration is the longest flushed since the row was inserted. */
  predicate Recorded(rows: seq<OutageRow>, log: Log) {
    && |rows| == |log.born| && InBirthOrder(log.born, |log.flushed|) && OneRowEach(rows)
    && forall i :: 0 <= i < |rows| ==> RowRight(rows[i], log.flushed, log.born[i])
  }

  /** No flushed outage has lost its row. */
  predicate Complete(rows: seq<OutageRow>, log: Log) {
    |rows| == |log.born| && forall j :: 0 <= j < |log.flushed| ==> Kept(rows, log, j)
  }

  predicate Kept(rows: seq<OutageRow>, log: Log, j: nat)
    requires |rows| == |log.born| && j < |log.flushed|
  {
    exists i :: 0 <= i < |rows| && rows[i].id == IdOf(log.flushed[j]) && log.born[i] <= j
  }

  ghost function WriteLog(rows: seq<OutageRow>, log: Log, e: Timeline.Entry): Log {
    Log(log.flushed + [e], if HasId(rows, IdOf(e)) then log.born else log.born + [|log.flushed|])
  }

  lemma LongestSnoc(flushed: seq<Timeline.Entry>, from: nat, e: Timeline.Entry, id: Identity)
    requires from <= |flushed|
    ensures var front := Longest(flushed[from..], id);
            Longest((flushed + [e])[from..], id)
              == if IdOf(e) != id then front
                 else Some(if front.Some? then Longer(front.value, e.duration) else e.duration)
  {
    assert (flushed + [e])[from..] == flushed[from..] + [e];
    assert (flushed[from..] + [e])[..|flushed[from..]|] == flushed[from..];
  }

  lemma OldRowRight(row: OutageRow, flushed: seq<Timeline.Entry>, from: nat, e: Timeline.Entry)
    requires from < |flushed| && RowRight(row, flushed, from)
    ensures RowRight(if row.id == IdOf(e) then OutageRow(row.id, Longer(row.duration, e.duration)) else row, flushed + [e], from)
  {
    LongestSnoc(flushed, from, e, row.id);
  }

  lemma NewRowRight(flushed: seq<Timeline.Entry>, e: Timeline.Entry)
    ensures RowRight(OutageRow(IdOf(e), e.duration), flushed + [e], |flushed|)
  {
    LongestSnoc(flushed, |flushed|, e, IdOf(e));
  }

  lemma WriteRecorded(rows: seq<OutageRow>, log: Log, e: Timeline.Entry)
    requires Recorded(rows, log)
    ensures Recorded(Write(rows, e), WriteLog(rows, log, e))
  {
    hide RowRight;
    hide Longest;
    var rows', log' := Write(rows, e), WriteLog(rows, log, e);
    forall i | 0 <= i < |rows'| ensures log'.born[i] < |log'.flushed| && RowRight(rows'[i], log'.flushed, log'.born[i]) {
      if i < |rows| {
        OldRowRight(rows[i], log.flushed, log.born[i], e);
      } else {
        NewRowRight(log.flushed, e);
      }
    }
  }

  lemma WriteComplete(rows: seq<OutageRow>, log: Log, e: Timeline.Entry)
    requires Recorded(rows, log) && Complete(rows, log)
    ensures Recorded(Write(rows, e), WriteLog(rows, log, e)) && Complete(Write(rows, e), WriteLog(rows, log, e))
  {
    WriteRecorded(rows, log, e);
    var rows', log' := Write(rows, e), WriteLog(rows, log, e);
    forall j | 0 <= j < |log'.flushed| ensures Kept(rows', log', j) {
      if j < |log.flushed| {
        assert Kept(rows, log, j);
        var i :| 0 <= i < |rows| && rows[i].id == IdOf(log.flushed[j]) && log.born[i] <= j;
        assert rows'[i].id == IdOf(log'.flushed[j]) && log'.born[i] <= j;
      } else if HasId(rows, IdOf(e)) {
        var i :| 0 <= i < |rows| && rows[i].id == IdOf(e);
        assert rows'[i].id == IdOf(log'.flushed[j]) && log'.born[i] <= j;
      } else {
        assert rows'[|rows|].id == IdOf(log'.flushed[j]) && log'.born[|rows|] <= j;
      }
    }
  }

  ghost function WriteAllLog(rows: seq<OutageRow>, log: Log, entries: seq<Timeline.Entry>): Log {
    if entries == [] then log
    else WriteLog(WriteAll(rows, entries[..|entries| - 1]), WriteAllLog(rows, log, entries[..|entries| - 1]), entries[|entries| - 1])
  }

  lemma {:induction false} WriteAllRecorded(rows: seq<OutageRow>, log: Log, entries: seq<Timeline.Entry>)
    requires Recorded(rows, log)
    ensures Recorded(WriteAll(rows, entries), WriteAllLog(rows, log, entries))
    ensures WriteAllLog(rows, log, entries).flushed == log.flushed + entries
    ensures Complete(rows, log) ==> Complete(WriteAll(rows, entries), WriteAllLog(rows, log, entries))
  {
    hide Recorded, Complete;
    if entries != [] {
      var front, last := entries[..|entries| - 1], entries[|entries| - 1];
      WriteAllRecorded(rows, log, front);
      WriteRecorded(WriteAll(rows, front), WriteAllLog(rows, log, front), last);
      if Complete(rows, log) {
        WriteComplete(WriteAll(rows, front), WriteAllLog(rows, log, front), last);
      }
      assert entries == front + [last];
    }
  }

  /** `DELETE … WHERE id NOT IN (SELECT id … ORDER BY id DESC LIMIT n)` keeps the newest rows. */
  lemma TrimRecorded(rows: seq<OutageRow>, log: Log, n: nat)
    requires Recorded(rows, log)
    ensures Recorded(Suffix(rows, n), log.(born := Suffix(log.born, n)))
    ensures Complete(rows, log) && |rows| <= n ==> Complete(Suffix(rows, n), log.(born := Suffix(log.born, n)))
  {
    var from := |rows| - |Suffix(rows, n)|;
    if Complete(rows, log) && |rows| <= n {
      assert log.(born := Suffix(log.born, n)) == log;
    }
    forall i | 0 <= i < |Suffix(rows, n)|
      ensures RowRight(Suffix(rows, n)[i], log.flushed, Suffix(log.born, n)[i])
    {
      assert RowRight(rows[from + i], log.flushed, log.born[from + i]);
    }
  }

  ghost function Identities(flushed: seq<Timeline.Entry>): set<Identity> { set i | 0 <= i < |flushed| :: IdOf(flushed[i]) }

  function RowIds(rows: seq<OutageRow>): set<Identity> { set i | 0 <= i < |rows| :: rows[i].id }

  lemma {:induction false} RowIdsCount(rows: seq<OutageRow>)
    requires OneRowEach(rows)
    ensures |RowIds(rows)| == |rows|
  {
    if rows != [] {
      var front, last := rows[..|rows| - 1], rows[|rows| - 1];
      RowIdsCount(front);
      assert RowIds(rows) == RowIds(front) + {last.id};
    }
  }

  lemma SubsetCount<T>(a: set<T>, b: set<T>)
    requires a <= b
    ensures |a| <= |b|
  {
    assert b == a + (b - a);
  }

  /** There are no more rows than outages. */
  lemma RowsBounded(rows: seq<OutageRow>, log: Log)
    requires Recorded(rows, log)
    ensures |rows| <= |Identities(log.flushed)|
  {
    RowIdsCount(rows);
    forall id | id in RowIds(rows) ensures id in Identities(log.flushed) {
      var i :| 0 <= i < |rows| && rows[i].id == id;
      assert RowRight(rows[i], log.flushed, log.born[i]);
    }
    SubsetCount(RowIds(rows), Identities(log.flushed));
  }

  lemma {:induction false} LongestPrefix(entries: seq<Timeline.Entry>, from: nat, id: Identity)
    requires from <= |entries| && forall j :: 0 <= j < from ==> IdOf(entries[j]) != id
    ensures Longest(entries, id) == Longest(entries[from..], id)
  {
    if |entries| == from {
      if from > 0 {
        LongestPrefix(entries[..from - 1], from - 1, id);
      }
    } else {
      LongestPrefix(entries[..|entries| - 1], from, id);
      assert entries[from..][..|entries[from..]| - 1] == entries[..|entries| - 1][from..];
    }
  }

  lemma {:induction false} LongestFound(entries: seq<Timeline.Entry>, id: Identity)
    ensures Longest(entries, id).Some? <==> exists j :: 0 <= j < |entries| && IdOf(entries[j]) == id
  {
    if entries != [] {
      LongestFound(entries[..|entries| - 1], id);
      if Longest(entries, id).Some? && IdOf(entries[|entries| - 1]) != id {
        var j :| 0 <= j < |entries| - 1 && IdOf(entries[..|entries| - 1][j]) == id;
        assert IdOf(entries[j]) == id;
      }
      if j :| 0 <= j < |entries| && IdOf(entries[j]) == id {
        assert j < |entries| - 1 ==> IdOf(entries[..|entries| - 1][j]) == id;
      }
    }
  }

  lemma FirstFlushed(rows: seq<OutageRow>, log: Log, i: nat, j: nat)
    requires Recorded(rows, log) && Complete(rows, log) && i < |rows| && j < log.born[i]
    ensures IdOf(log.flushed[j]) != rows[i].id
  {
    assert Kept(rows, log, j);
    var k :| 0 <= k < |rows| && rows[k].id == IdOf(log.flushed[j]) && log.born[k] <= j;
    if k == i {
      assert false;
    }
  }

  lemma RowIsLongest(rows: seq<OutageRow>, log: Log, i: nat)
    requires Recorded(rows, log) && Complete(rows, log) && i < |rows|
    ensures Longest(log.flushed, rows[i].id) == Some(rows[i].duration)
  {
    assert RowRight(rows[i], log.flushed, log.born[i]);
    forall j | 0 <= j < log.born[i] ensures IdOf(log.flushed[j]) != rows[i].id {
      FirstFlushed(rows, log, i, j);
    }
    LongestPrefix(log.flushed, log.born[i], rows[i].id);
  }

  /** While no row has been lost, the table is exactly the longest duration ever flushed for each outage. */
  lemma CompleteMeans(rows: seq<OutageRow>, log: Log, id: Identity)
    requires Recorded(rows, log) && Complete(rows, log)
    ensures HasId(rows, id) <==> Longest(log.flushed, id).Some?
    ensures forall i :: 0 <= i < |rows| && rows[i].id == id ==> Longest(log.flushed, id) == Some(rows[i].duration)
  {
    LongestFound(log.flushed, id);
    if j :| 0 <= j < |log.flushed| && IdOf(log.flushed[j]) == id {
      assert Kept(rows, log, j);
    }
    hide Complete, Recorded, Longest;
    forall i | 0 <= i < |rows| && rows[i].id == id ensures Longest(log.flushed, id) == Some(rows[i].duration) {
      RowIsLongest(rows, log, i);
    }
  }

  // ---------------------------------------------------------------- when a duration is the longest ever

  /** If the outage has a row, its duration is the longest ever flushed. */
  predicate Truthful(rows: seq<OutageRow>, flushed: seq<Timeline.Entry>, id: Identity) {
    forall i :: 0 <= i < |rows| && rows[i].id == id ==> Longest(flushed, id) == Some(rows[i].duration)
  }

  /** An entry that was flushed for the outage, if any, was no longer than this. */
  predicate NoLonger(flushed: seq<Timeline.Entry>, id: Identity, duration: int) {
    Longest(flushed, id).Some? ==> Longest(flushed, id).value <= duration
  }

  function LongestOf(a: Option<int>, b: Option<int>): Option<int> {
    if a.None? then b else if b.None? then a else Some(Longer(a.value, b.value))
  }

  lemma {:induction false} LongestConcat(a: seq<Timeline.Entry>, b: seq<Timeline.Entry>, id: Identity)
    ensures Longest(a + b, id) == LongestOf(Longest(a, id), Longest(b, id))
  {
    if b == [] {
      assert a + b == a;
    } else {
      LongestConcat(a, b[..|b| - 1], id);
      assert (a + b)[..|a + b| - 1] == a + b[..|b| - 1];
    }
  }

  /** A row has the longest duration ever flushed exactly if nothing flushed before it was inserted was longer. */
  lemma RowExact(rows: seq<OutageRow>, log: Log, i: nat)
    requires Recorded(rows, log) && i < |rows|
    ensures Longest(log.flushed, rows[i].id) == Some(rows[i].duration)
       <==> NoLonger(log.flushed[..log.born[i]], rows[i].id, rows[i].duration)
  {
    assert RowRight(rows[i], log.flushed, log.born[i]);
    var from := log.born[i];
    LongestConcat(log.flushed[..from], log.flushed[from..], rows[i].id);
    assert log.flushed[..from] + log.flushed[from..] == log.flushed;
  }

  /** Flushing entries keeps the duration of an outage the longest ever exactly if the outage has a row to
      update, or was never flushed before, or is not among the entries, or is so at least as long as before. */
  predicate KeepsLongest(rows: seq<OutageRow>, flushed: seq<Timeline.Entry>, entries: seq<Timeline.Entry>, id: Identity) {
    HasId(rows, id) || Longest(entries, id).None? || NoLonger(flushed, id, Longest(entries, id).value)
  }

  /** The duration that the table has for an outage. */
  ghost function Stored(rows: seq<OutageRow>, id: Identity): Option<int>
    requires OneRowEach(rows)
  {
    if HasId(rows, id) then
      var i :| 0 <= i < |rows| && rows[i].id == id;
      Some(rows[i].duration)
    else None
  }

  lemma StoredAt(rows: seq<OutageRow>, id: Identity, i: nat)
    requires OneRowEach(rows) && i < |rows| && rows[i].id == id
    ensures Stored(rows, id) == Some(rows[i].duration)
  {
  }

  lemma StoredTruthful(rows: seq<OutageRow>, flushed: seq<Timeline.Entry>, id: Identity)
    requires OneRowEach(rows)
    ensures Truthful(rows, flushed, id) <==> Stored(rows, id).None? || Stored(rows, id) == Longest(flushed, id)
  {
    if HasId(rows, id) {
      var i :| 0 <= i < |rows| && rows[i].id == id;
      StoredAt(rows, id, i);
    }
  }

  /** A write updates the stored duration, or sets it. */
  lemma StoredWrite(rows: seq<OutageRow>, e: Timeline.Entry, id: Identity)
    requires OneRowEach(rows)
    ensures OneRowEach(Write(rows, e))
    ensures Stored(Write(rows, e), id) == if IdOf(e) == id then LongestOf(Stored(rows, id), Some(e.duration)) else Stored(rows, id)
  {
    var after := Write(rows, e);
    if i :| 0 <= i < |rows| && rows[i].id == id {
      StoredAt(rows, id, i);
      StoredAt(after, id, i);
    } else if IdOf(e) == id {
      StoredAt(after, id, |rows|);
    } else {
      forall i | 0 <= i < |after| ensures after[i].id != id {
        if i < |rows| {
          assert rows[i].id != id && after[i].id == rows[i].id;
        }
      }
    }
  }

  lemma {:induction false} StoredWriteAll(rows: seq<OutageRow>, entries: seq<Timeline.Entry>, id: Identity)
    requires OneRowEach(rows)
    ensures OneRowEach(WriteAll(rows, entries))
    ensures Stored(WriteAll(rows, entries), id) == LongestOf(Stored(rows, id), Longest(entries, id))
  {
    if entries != [] {
      var front, last := entries[..|entries| - 1], entries[|entries| - 1];
      StoredWriteAll(rows, front, id);
      hide Stored, OneRowEach, Write;
      StoredWrite(WriteAll(rows, front), last, id);
    }
  }

  lemma WriteAllExact(rows: seq<OutageRow>, flushed: seq<Timeline.Entry>, entries: seq<Timeline.Entry>, id: Identity)
    requires OneRowEach(rows) && Truthful(rows, flushed, id)
    ensures Truthful(WriteAll(rows, entries), flushed + entries, id) <==> KeepsLongest(rows, flushed, entries, id)
  {
    StoredWriteAll(rows, entries, id);
    StoredTruthful(rows, flushed, id);
    StoredTruthful(WriteAll(rows, entries), flushed + entries, id);
    LongestConcat(flushed, entries, id);
    assert Stored(rows, id).Some? <==> HasId(rows, id);
    hide WriteAll, Longest, Stored, Truthful;
  }

  /** One flush: the entries are written and the oldest rows trimmed. */
  function Flushed(rows: seq<OutageRow>, entries: seq<Timeline.Entry>, limit: nat): seq<OutageRow> {
    Suffix(WriteAll(rows, entries), limit)
  }

  lemma {:induction false} WriteAllGrows(rows: seq<OutageRow>, entries: seq<Timeline.Entry>)
    ensures |rows| <= |WriteAll(rows, entries)| <= |rows| + |entries|
    ensures forall i :: 0 <= i < |rows| ==> WriteAll(rows, entries)[i].id == rows[i].id
  {
    if entries != [] {
      WriteAllGrows(rows, entries[..|entries| - 1]);
    }
  }

  /** A row that a flush inserts is not trimmed by it when no more entries are flushed than rows are kept. */
  lemma InsertedSurvives(rows: seq<OutageRow>, entries: seq<Timeline.Entry>, id: Identity, limit: nat)
    requires OneRowEach(rows) && |entries| <= limit && !HasId(rows, id) && Longest(entries, id).Some?
    ensures HasId(Flushed(rows, entries, limit), id)
  {
    StoredWriteAll(rows, entries, id);
    WriteAllGrows(rows, entries);
    var all := WriteAll(rows, entries);
    hide Longest, WriteAll, OneRowEach;
    assert HasId(all, id) && |all| <= |rows| + limit;
    var i :| 0 <= i < |all| && all[i].id == id;
    assert i >= |rows|;
    KeptInSuffix(all, i, limit);
  }

  lemma KeptInSuffix<T>(s: seq<T>, i: nat, limit: nat)
    requires |s| - limit <= i < |s|
    ensures exists j :: 0 <= j < |Suffix(s, limit)| && Suffix(s, limit)[j] == s[i]
  {
    var from := |s| - |Suffix(s, limit)|;
    assert Suffix(s, limit)[i - from] == s[i];
  }

  /** A flush leaves the stored duration of an outage the longest ever flushed if and only if the update finds a
      row, or the outage is not among the entries, or it was never flushed for longer than they say. */
  lemma FlushExact(rows: seq<OutageRow>, flushed: seq<Timeline.Entry>, entries: seq<Timeline.Entry>, id: Identity, limit: nat)
    requires OneRowEach(rows) && Truthful(rows, flushed, id) && |entries| <= limit
    ensures OneRowEach(Flushed(rows, entries, limit))
    ensures Truthful(Flushed(rows, entries, limit), flushed + entries, id) <==> KeepsLongest(rows, flushed, entries, id)
  {
    StoredWriteAll(rows, entries, id);
    WriteAllExact(rows, flushed, entries, id);
    hide WriteAll, Longest;
    TrimTruthful(WriteAll(rows, entries), flushed + entries, id, limit);
    if !KeepsLongest(rows, flushed, entries, id) {
      InsertedSurvives(rows, entries, id, limit);
    }
  }

  lemma TrimTruthful(rows: seq<OutageRow>, flushed: seq<Timeline.Entry>, id: Identity, limit: nat)
    requires OneRowEach(rows)
    ensures OneRowEach(Suffix(rows, limit))
    ensures Truthful(Suffix(rows, limit), flushed, id) <==> Truthful(rows, flushed, id) || !HasId(Suffix(rows, limit), id)
  {
    hide Longest;
    var kept, from := Suffix(rows, limit), |rows| - |Suffix(rows, limit)|;
    assert forall i :: 0 <= i < |kept| ==> kept[i] == rows[from + i];
    if k :| 0 <= k < |kept| && kept[k].id == id {
      assert rows[from + k].id == id;
      forall i | 0 <= i < |rows| && rows[i].id == id ensures i == from + k {
        assert rows[i].id == rows[from + k].id;
      }
    }
  }

  function FlushedAll(batches: seq<seq<Timeline.Entry>>): seq<Timeline.Entry> {
    if batches == [] then [] else FlushedAll(batches[..|batches| - 1]) + batches[|batches| - 1]
  }

  function RowsAfter(batches: seq<seq<Timeline.Entry>>, limit: nat): seq<OutageRow> {
    if batches == [] then [] else Flushed(RowsAfter(batches[..|batches| - 1], limit), batches[|batches| - 1], limit)
  }

  /** What flush k does to an outage, judged before it. */
  predicate FlushKeeps(batches: seq<seq<Timeline.Entry>>, limit: nat, id: Identity, k: nat)
    requires k < |batches|
  {
    KeepsLongest(RowsAfter(batches[..k], limit), FlushedAll(batches[..k]), batches[k], id)
  }

  predicate TruthfulAfter(batches: seq<seq<Timeline.Entry>>, limit: nat, id: Identity) {
    Truthful(RowsAfter(batches, limit), FlushedAll(batches), id)
  }

  /** Over any run of flushes of no more entries than rows are kept, the stored duration of an outage is the
      longest ever flushed after each of them if and only if each of them keeps it so. */
  lemma {:induction false} FlushesExact(batches: seq<seq<Timeline.Entry>>, limit: nat, id: Identity)
    requires forall k :: 0 <= k < |batches| ==> |batches[k]| <= limit
    ensures OneRowEach(RowsAfter(batches, limit))
    ensures (forall k :: 0 <= k <= |batches| ==> TruthfulAfter(batches[..k], limit, id))
       <==> (forall k :: 0 <= k < |batches| ==> FlushKeeps(batches, limit, id, k))
  {
    if batches == [] {
      assert batches[..0] == [];
    } else {
      var n := |batches| - 1;
      var front := batches[..n];
      FlushesExact(front, limit, id);
      assert batches[..n + 1] == batches;
      forall k | 0 <= k <= n ensures front[..k] == batches[..k] {
      }
      forall k | 0 <= k < n ensures FlushKeeps(front, limit, id, k) == FlushKeeps(batches, limit, id, k) {
        assert front[k] == batches[k];
      }
      if TruthfulAfter(front, limit, id) {
        FlushExact(RowsAfter(front, limit), FlushedAll(front), batches[n], id, limit);
      } else {
        assert front[..n] == front;
        TrimmedRows(RowsAfter(front, limit), batches[n], limit);
      }
      hide KeepsLongest, Truthful, Flushed;
      assert TruthfulAfter(front, limit, id) ==> (TruthfulAfter(batches, limit, id) <==> FlushKeeps(batches, limit, id, n));
      FlushesStep(batches, limit, id, n);
    }
  }

  lemma TrimmedRows(rows: seq<OutageRow>, entries: seq<Timeline.Entry>, limit: nat)
    requires OneRowEach(rows)
    ensures OneRowEach(Flushed(rows, entries, limit))
  {
    StoredWriteAll(rows, entries, Identity(Timeline.Dish, "", 0));
  }

  lemma FlushesStep(batches: seq<seq<Timeline.Entry>>, limit: nat, id: Identity, n: nat)
    requires |batches| == n + 1
    requires (forall k :: 0 <= k <= n ==> TruthfulAfter(batches[..n][..k], limit, id))
        <==> (forall k :: 0 <= k < n ==> FlushKeeps(batches[..n], limit, id, k))
    requires forall k :: 0 <= k < n ==> FlushKeeps(batches[..n], limit, id, k) == FlushKeeps(batches, limit, id, k)
    requires TruthfulAfter(batches[..n], limit, id) ==> (TruthfulAfter(batches, limit, id) <==> FlushKeeps(batches, limit, id, n))
    ensures (forall k :: 0 <= k <= n + 1 ==> TruthfulAfter(batches[..k], limit, id))
       <==> (forall k :: 0 <= k <= n ==> FlushKeeps(batches, limit, id, k))
  {
    hide TruthfulAfter, FlushKeeps;
    assert batches[..n + 1] == batches && batches[..n][..n] == batches[..n];
    forall k | 0 <= k <= n ensures batches[..n][..k] == batches[..k] {
    }
  }

  // ---------------------------------------------------------------- a lost row forgets

  function RowsFor(entries: seq<Timeline.Entry>): seq<OutageRow> {
    seq(|entries|, i requires 0 <= i < |entries| => OutageRow(IdOf(entries[i]), entries[i].duration))
  }

  predicate Distinct(entries: seq<Timeline.Entry>) {
    forall i, j :: 0 <= i < j < |entries| ==> IdOf(entries[i]) != IdOf(entries[j])
  }

  lemma {:induction false} FreshWrites(rows: seq<OutageRow>, others: seq<Timeline.Entry>)
    requires Distinct(others) && forall i :: 0 <= i < |others| ==> !HasId(rows, IdOf(others[i]))
    ensures WriteAll(rows, others) == rows + RowsFor(others)
  {
    if others != [] {
      var front, last := others[..|others| - 1], others[|others| - 1];
      FreshWrites(rows, front);
      var r := rows + RowsFor(front);
      forall i | 0 <= i < |r| ensures r[i].id != IdOf(last) {
        if i < |rows| {
          assert r[i] == rows[i];
        } else {
          assert r[i].id == IdOf(others[i - |rows|]);
        }
      }
      assert !HasId(r, IdOf(last));
      assert RowsFor(others) == RowsFor(front) + [OutageRow(IdOf(last), last.duration)];
    }
  }

  lemma WriteOne(rows: seq<OutageRow>, e: Timeline.Entry)
    ensures WriteAll(rows, [e]) == Write(rows, e)
  {
    assert [e][..0] == [];
  }

  /** Flushing an outage, then as many others as the table holds, and then the first one again with a shorter
      duration leaves the shorter duration: the row had been trimmed in between. */
  lemma TrimForgets(e: Timeline.Entry, again: Timeline.Entry, others: seq<Timeline.Entry>, limit: nat)
    requires limit >= 1 && |others| == limit && IdOf(again) == IdOf(e) && again.duration < e.duration
    requires Distinct(others) && forall i :: 0 <= i < |others| ==> IdOf(others[i]) != IdOf(e)
    ensures var one := Suffix(WriteAll([], [e]), limit);
            var two := Suffix(WriteAll(one, others), limit);
            var three := Suffix(WriteAll(two, [again]), limit);
            three != [] && three[|three| - 1] == OutageRow(IdOf(e), again.duration)
  {
    var one := Suffix(WriteAll([], [e]), limit);
    WriteOne([], e);
    assert one == [OutageRow(IdOf(e), e.duration)];
    FreshWrites(one, others);
    var two := Suffix(WriteAll(one, others), limit);
    assert two == RowsFor(others);
    assert !HasId(two, IdOf(e));
    WriteOne(two, again);
  }
}
