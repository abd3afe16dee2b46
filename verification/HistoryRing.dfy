/** The RAM tier's ring buffer: fixed arrays of times and values, and a sticky flag that says whether the
    times have come in order so far. */
module HistoryRing {
  import opened Basics

  /** A point as it is stored: Unix seconds and a value. */
  datatype Sample = Sample(time: int, value: real)

  /** A point as it is handed in: nanoseconds since the epoch. */
  datatype Point = Point(time: int, value: real)

  /** `Time.Unix()`: whole seconds, rounded down. */
  function Stored(p: Point): Sample { Sample(p.time / SECOND, p.value) }

  lemma StoredMeans(p: Point)
    ensures Stored(p) == Sample(p.time / 1_000_000_000, p.value)
  {
  }

  /** The last n elements, or all of them. */
  function Suffix<T>(s: seq<T>, n: nat): seq<T> { if |s| <= n then s else s[|s| - n..] }

  predicate Nondecreasing(s: seq<Sample>) {
    forall i, j :: 0 <= i < j < |s| ==> s[i].time <= s[j].time
  }

  lemma MultipleOf(d: int, n: nat)
    ensures d >= 1 ==> d * n >= n
    ensures d <= -1 ==> d * n <= -(n as int)
  {
  }

  lemma ModOf(k: int, n: nat, q: int, r: int)
    requires n > 0 && k == q * n + r && 0 <= r < n
    ensures k % n == r && k / n == q
  {
    var d := k / n - q;
    assert k == (k / n) * n + k % n;
    assert d * n == r - k % n;
    MultipleOf(d, n);
  }

  lemma ModNext(k: nat, n: nat)
    requires n > 0
    ensures (k + 1) % n == (k % n + 1) % n
  {
    var q, r := k / n, k % n;
    if r + 1 < n {
      ModOf(k + 1, n, q, r + 1);
      ModOf(r + 1, n, 0, r + 1);
    } else {
      ModOf(k + 1, n, q + 1, 0);
      ModOf(r + 1, n, 1, 0);
    }
  }

  lemma ModApart(a: nat, b: nat, n: nat)
    requires n > 0 && a < b < a + n
    ensures a % n != b % n
  {
    var d := b / n - a / n;
    assert b - a == d * n + (b % n - a % n);
    MultipleOf(d, n);
  }

  lemma ModPrevious(k: nat, n: nat)
    requires n > 0 && k > 0
    ensures (k % n + n - 1) % n == (k - 1) % n
  {
    ModNext(k - 1, n);
    var r := (k - 1) % n;
    if r + 1 < n {
      ModOf(r + 1, n, 0, r + 1);
      ModOf(r + n, n, 1, r);
    } else {
      ModOf(r + 1, n, 1, 0);
      ModOf(n - 1, n, 0, n - 1);
    }
  }

  /** The slot that reading i positions after the oldest point uses. */
  lemma ReadSlot(total: nat, count: nat, n: nat, i: nat)
    requires n > 0 && count <= n && count <= total && i < count
    ensures var start := if total % n - count < 0 then total % n - count + n else total % n - count;
            0 <= start && (start + i) % n == (total - count + i) % n
  {
    var q, r := total / n, total % n;
    var k := total - count + i;
    var start := if r - count < 0 then r - count + n else r - count;
    var q' := if r - count < 0 then q - 1 else q;
    assert q' * n == if r - count < 0 then q * n - n else q * n;
    assert k == q' * n + (start + i);
    if start + i < n {
      ModOf(k, n, q', start + i);
      ModOf(start + i, n, 0, start + i);
    } else {
      assert (q' + 1) * n == q' * n + n;
      ModOf(k, n, q' + 1, start + i - n);
      ModOf(start + i, n, 1, start + i - n);
    }
  }

  class Ring {
    const times: array<int>
    const values: array<real>
    var next: nat
    var count: nat
    var ordered: bool
    /** Everything ever appended. */
    ghost var history: seq<Sample>

    ghost predicate Valid()
      reads this, times, values
    {
      && times.Length == values.Length > 0
      && next == |history| % times.Length
      && count == (if |history| < times.Length then |history| else times.Length)
      && (forall k {:trigger history[k]} :: |history| - count <= k < |history| ==>
            times[k % times.Length] == history[k].time && values[k % times.Length] == history[k].value)
      && (ordered <==> Nondecreasing(history))
    }

    function Capacity(): nat { times.Length }

    constructor (capacity: int)
      ensures Valid() && history == [] && Capacity() == (if capacity < 1 then 1 else capacity)
      ensures fresh(times) && fresh(values)
    {
      var n := if capacity < 1 then 1 else capacity;
      times := new int[n];
      values := new real[n];
      next, count, ordered, history := 0, 0, true, [];
    }

    method Append(point: Point)
      requires Valid()
      modifies this, times, values
      ensures Valid() && history == old(history) + [Stored(point)]
    {
      hide Nondecreasing, Stored;
      var sample := Stored(point);
      var n := times.Length;
      if count > 0 {
        ModPrevious(|history|, n);
        var previous := (next + n - 1) % n;
        assert times[previous] == history[|history| - 1].time;
        if sample.time < times[previous] {
          ordered := false;
        }
      }
      ghost var before := history;
      forall k: nat | |before| - n < k < |before| ensures k % n != next {
        ModApart(k, |before|, n);
      }
      times[next] := sample.time;
      values[next] := sample.value;
      ModNext(|before|, n);
      next := (next + 1) % n;
      if count < n {
        count := count + 1;
      }
      history := history + [sample];
      NondecreasingSnoc(before, sample);
    }

    /** The points kept, oldest first. */
    method Snapshot() returns (result: seq<Sample>)
      requires Valid()
      ensures result == Suffix(history, Capacity())
    {
      var n := times.Length;
      var start: int := next - count;
      if start < 0 {
        start := start + n;
      }
      result := [];
      for i := 0 to count
        invariant |result| == i
        invariant forall j :: 0 <= j < i ==> result[j] == history[|history| - count + j]
      {
        ReadSlot(|history|, count, n, i);
        var index := (start + i) % n;
        assert history[|history| - count + i] == history[|history| - count + i];
        result := result + [Sample(times[index], values[index])];
      }
    }
  }

  lemma NondecreasingSnoc(s: seq<Sample>, x: Sample)
    ensures Nondecreasing(s + [x]) <==> Nondecreasing(s) && (s == [] || s[|s| - 1].time <= x.time)
  {
    var t := s + [x];
    if Nondecreasing(t) {
      assert forall i :: 0 <= i < |s| ==> t[i] == s[i];
      if s != [] {
        assert t[|s| - 1].time <= t[|s|].time;
      }
    }
  }
}
