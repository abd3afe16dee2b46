/** The WAN monitor's probe windows: loss and round-trip time over the last 30 seconds and 5 minutes, computed
    from a pruned list of samples. */
module WanMonitor {
  import opened Basics

  /** A probe: when, how long in nanoseconds, and whether it succeeded. */
  datatype Sample = Sample(at: int, rtt: nat, success: bool)

  datatype Answer = Answer(rtt: nat, success: bool)

  /** What is published for a window: nothing without samples. */
  datatype Stats = Stats(rttMs: real, loss: real, available: bool)

  const SHORT := 30 * SECOND
  const LONG := 300 * SECOND
  /** The samples of a window, in their order. */
  function InWindow(s: seq<Sample>, since: int): seq<Sample> {
    if s == [] then [] else InWindow(Front(s), since) + if Last(s).at < since then [] else [Last(s)]
  }

  function Successes(s: seq<Sample>): nat {
    if s == [] then 0 else Successes(Front(s)) + if Last(s).success then 1 else 0
  }

  /** The round-trip times of the successful probes, added up. */
  function TotalRtt(s: seq<Sample>): nat {
    if s == [] then 0 else TotalRtt(Front(s)) + if Last(s).success then Last(s).rtt else 0
  }

  lemma {:induction false} SuccessesBounded(s: seq<Sample>)
    ensures Successes(s) <= |s|
  {
    if s != [] {
      SuccessesBounded(Front(s));
    }
  }

  /** Loss is the share of failed probes; the time is the mean over the successful ones, in milliseconds. */
  function Measured(s: seq<Sample>): Stats {
    if s == [] then Stats(0.0, 0.0, false)
    else Stats(if Successes(s) == 0 then 0.0 else MeanMs(TotalRtt(s), Successes(s)), Share(|s| - Successes(s), |s|), true)
  }

  function Share(part: int, whole: int): real
    requires whole > 0
  {
    part as real / whole as real
  }

  function MeanMs(total: nat, n: nat): real
    requires n > 0
  {
    total as real / 1_000_000.0 / n as real
  }

  lemma ShareBounded(part: int, whole: int)
    requires 0 <= part <= whole && whole > 0
    ensures 0.0 <= Share(part, whole) <= 1.0
  {
  }

  /** Loss never leaves [0,1], and the mean round-trip time is never negative. */
  lemma MeasuredBounded(s: seq<Sample>)
    ensures 0.0 <= Measured(s).loss <= 1.0 && Measured(s).rttMs >= 0.0
  {
    SuccessesBounded(s);
    if s != [] {
      ShareBounded(|s| - Successes(s), |s|);
    }
  }

  /** Loss times the number of samples is the number that failed; the mean time, in milliseconds, times the number that
      succeeded is all their time. */
  lemma MeasuredMeans(s: seq<Sample>)
    requires s != []
    ensures Measured(s).loss * |s| as real == (|s| - Successes(s)) as real
    ensures Successes(s) > 0 ==> Measured(s).rttMs * Successes(s) as real == TotalRtt(s) as real / 1_000_000.0
    ensures Successes(s) == 0 ==> Measured(s).rttMs == 0.0
  {
    ShareTimes(|s| - Successes(s), |s|);
    if Successes(s) > 0 {
      MeanTimes(TotalRtt(s), Successes(s));
    }
    hide Share, MeanMs, Successes, TotalRtt;
  }

  lemma ShareTimes(part: int, whole: int)
    requires whole > 0
    ensures Share(part, whole) * whole as real == part as real
  {
  }

  lemma MeanTimes(total: nat, n: nat)
    requires n > 0
    ensures MeanMs(total, n) * n as real == total as real / 1_000_000.0
  {
  }

  lemma Snoc<T>(s: seq<T>, x: T)
    ensures Front(s + [x]) == s && Last(s + [x]) == x
  {
  }

  lemma CountSnoc(s: seq<Sample>, x: Sample)
    ensures Successes(s + [x]) == Successes(s) + (if x.success then 1 else 0)
    ensures TotalRtt(s + [x]) == TotalRtt(s) + (if x.success then x.rtt else 0)
  {
    Snoc(s, x);
  }

  lemma WindowSnoc(s: seq<Sample>, x: Sample, since: int)
    ensures InWindow(s + [x], since) == if x.at < since then InWindow(s, since) else InWindow(s, since) + [x]
  {
    Snoc(s, x);
  }

  lemma {:induction false} WindowConcat(a: seq<Sample>, b: seq<Sample>, since: int)
    ensures InWindow(a + b, since) == InWindow(a, since) + InWindow(b, since)
  {
    if b == [] {
      assert a + b == a;
    } else {
      WindowConcat(a, Front(b), since);
      assert Front(a + b) == a + Front(b);
    }
  }

  predicate AllBefore(s: seq<Sample>, t: int) { forall i :: 0 <= i < |s| ==> s[i].at < t }

  lemma {:induction false} WindowEmpty(s: seq<Sample>, since: int)
    ensures InWindow(s, since) == [] <==> AllBefore(s, since)
  {
    if s != [] {
      WindowEmpty(Front(s), since);
      if AllBefore(Front(s), since) && Last(s).at < since {
        forall i | 0 <= i < |s| ensures s[i].at < since {
          assert i < |s| - 1 ==> Front(s)[i] == s[i];
        }
      }
      if AllBefore(s, since) {
        forall i | 0 <= i < |Front(s)| ensures Front(s)[i].at < since {
          assert Front(s)[i] == s[i];
        }
      }
    }
  }

  /** Dropping the oldest samples changes no window if and only if all of them are before it. */
  lemma PruningInvisibleIff(dropped: seq<Sample>, kept: seq<Sample>, since: int)
    ensures InWindow(dropped + kept, since) == InWindow(kept, since) <==> AllBefore(dropped, since)
  {
    WindowConcat(dropped, kept, since);
    WindowEmpty(dropped, since);
    if InWindow(dropped, since) + InWindow(kept, since) == InWindow(kept, since) {
      assert |InWindow(dropped, since)| + |InWindow(kept, since)| == |InWindow(kept, since)|;
    }
  }

  method ProbeWindow(samples: seq<Sample>, since: int) returns (stats: Stats)
    ensures stats == Measured(InWindow(samples, since))
  {
    var count, successes, total := 0, 0, 0;
    assert InWindow(samples[..0], since) == [];
    assert Successes([]) == 0 && TotalRtt([]) == 0;
    hide InWindow, Successes, TotalRtt, Share, MeanMs;
    for i := 0 to |samples|
      invariant count == |InWindow(samples[..i], since)|
      invariant successes == Successes(InWindow(samples[..i], since))
      invariant total == TotalRtt(InWindow(samples[..i], since))
    {
      WindowSnoc(samples[..i], samples[i], since);
      CountSnoc(InWindow(samples[..i], since), samples[i]);
      assert samples[..i + 1] == samples[..i] + [samples[i]];
      if samples[i].at < since {
        continue;
      }
      count := count + 1;
      if samples[i].success {
        successes := successes + 1;
        total := total + samples[i].rtt;
      }
    }
    assert samples[..|samples|] == samples;
    if count == 0 {
      return Stats(0.0, 0.0, false);
    }
    var loss := Share(count - successes, count);
    if successes == 0 {
      return Stats(0.0, loss, true);
    }
    stats := Stats(MeanMs(total, successes), loss, true);
  }

  /** The samples of one round, all of the same time. */
  function Round(now: int, answers: seq<Answer>): seq<Sample> {
    seq(|answers|, i requires 0 <= i < |answers| => Sample(now, answers[i].rtt, answers[i].success))
  }

  predicate InOrder(s: seq<Sample>) { forall i, j :: 0 <= i < j < |s| ==> s[i].at <= s[j].at }

  /** The samples kept are all samples but some of the oldest, which, while the clock has not gone back, lie
      before every window. */
  ghost predicate Pruned(all: seq<Sample>, dropped: seq<Sample>, probes: seq<Sample>, steady: bool) {
    && all == dropped + probes && (all == [] ==> dropped == [])
    && (steady ==> InOrder(all))
    && (steady && all != [] ==> AllBefore(dropped, Last(all).at - LONG))
  }

  class Monitor {
    var probes: seq<Sample>
    var lossNow: real
    var stats30s: Stats
    var stats5m: Stats

    /** Every sample ever taken, those pruned so far, and whether the clock has never gone back. */
    ghost var all: seq<Sample>
    ghost var dropped: seq<Sample>
    ghost var steady: bool

    ghost predicate Valid()
      reads this`all, this`dropped, this`probes, this`steady
    {
      Pruned(all, dropped, probes, steady)
    }

    constructor ()
      ensures Valid() && all == dropped == probes == [] && steady && !stats30s.available && !stats5m.available
    {
      probes, lossNow, stats30s, stats5m := [], 0.0, Stats(0.0, 0.0, false), Stats(0.0, 0.0, false);
      all, dropped, steady := [], [], true;
    }

    /** As long as the clock does not go back, what a round publishes is what the full history of probes gives,
        so that pruning is invisible. */
    method ProbeOnce(now: int, answers: seq<Answer>) returns (loss: Option<real>, rtt: Option<real>)
      requires Valid()
      modifies this
      ensures Valid()
      ensures answers == [] ==> unchanged(this) && loss.None? && rtt.None?
      ensures answers != [] ==> all == old(all) + Round(now, answers)
      ensures answers != [] ==> steady == (old(steady) && NotBack(old(all), now))
      ensures answers != [] && steady ==>
                stats30s == Measured(InWindow(all, now - SHORT)) && stats5m == Measured(InWindow(all, now - LONG))
      ensures answers != [] ==> PrunedAt(old(dropped), old(probes) + Round(now, answers), now) && PublishedAt(now)
      ensures answers != [] ==> stats30s.available && stats5m.available && lossNow == Measured(Round(now, answers)).loss
      ensures loss == if answers != [] && now >= YEAR_2025 then Some(lossNow) else None
      ensures rtt == if answers != [] && now >= YEAR_2025 && Successes(Round(now, answers)) > 0
                     then Some(Measured(Round(now, answers)).rttMs) else None
    {
      loss, rtt := None, None;
      if |answers| == 0 {
        return;
      }
      var taken, successes, total := Probe(now, answers);
      hide Round, Pruned, Successes, TotalRtt, Measured, InWindow, FrontBefore, AllBefore;
      hide NotBack, InOrder, Front, Last, Share, MeanMs, PrunedAt, PublishedAt;
      Keep(now, taken);
      lossNow := Share(|answers| - successes, |answers|);
      if now >= YEAR_2025 {
        loss := Some(lossNow);
        if successes > 0 {
          rtt := Some(MeanMs(total, successes));
        }
      }
    }

    /** The front part that lies before the long window is dropped, and nothing else. */
    ghost predicate PrunedAt(before: seq<Sample>, samples: seq<Sample>, now: int)
      reads this`dropped, this`probes
    {
      var n := FrontBefore(samples, now - LONG);
      dropped == before + samples[..n] && probes == samples[n..]
    }

    /** What is published is computed from the samples kept; over each window it is the same as over all samples
        exactly when everything dropped lies before the window. */
    ghost predicate PublishedAt(now: int)
      reads this`stats30s, this`stats5m, this`all, this`dropped, this`probes
    {
      && stats30s == Measured(InWindow(probes, now - SHORT)) && stats5m == Measured(InWindow(probes, now - LONG))
      && (InWindow(all, now - SHORT) == InWindow(probes, now - SHORT) <==> AllBefore(dropped, now - SHORT))
      && (InWindow(all, now - LONG) == InWindow(probes, now - LONG) <==> AllBefore(dropped, now - LONG))
    }

    /** Adds the samples of a round, prunes, and computes both windows. */
    method Keep(now: int, taken: seq<Sample>)
      requires Valid() && taken != [] && forall i :: 0 <= i < |taken| ==> taken[i].at == now
      modifies this`probes, this`stats30s, this`stats5m, this`all, this`dropped, this`steady
      ensures Valid() && all == old(all) + taken && steady == (old(steady) && NotBack(old(all), now))
      ensures steady ==> stats30s == Measured(InWindow(all, now - SHORT)) && stats5m == Measured(InWindow(all, now - LONG))
      ensures stats30s.available && stats5m.available
      ensures PrunedAt(old(dropped), old(probes) + taken, now) && PublishedAt(now)
    {
      hide InWindow, Pruned, NotBack, Measured, AllBefore, InOrder, Last, Front, Share, MeanMs, FrontBefore;
      var kept := Prune(probes + taken, now - LONG);
      ghost var n := FrontBefore(probes + taken, now - LONG);
      ghost var gone := (probes + taken)[..n];
      PrunedNext(all, dropped, probes, steady, taken, n, now);
      MeasuredAvailable(InWindow(kept, now - SHORT));
      MeasuredAvailable(InWindow(kept, now - LONG));
      all, dropped, steady, probes := all + taken, dropped + gone, steady && NotBack(all, now), kept;
      stats30s := ProbeWindow(probes, now - SHORT);
      stats5m := ProbeWindow(probes, now - LONG);
    }
  }

  lemma MeasuredAvailable(s: seq<Sample>)
    requires s != []
    ensures Measured(s).available
  {
  }

  predicate NotBack(all: seq<Sample>, now: int) { all == [] || Last(all).at <= now }

  method Probe(now: int, answers: seq<Answer>) returns (taken: seq<Sample>, successes: nat, total: nat)
    ensures taken == Round(now, answers) && successes == Successes(taken) && total == TotalRtt(taken)
    ensures successes <= |taken| == |answers| && forall i :: 0 <= i < |taken| ==> taken[i].at == now
    ensures answers != [] ==> Measured(taken).loss == Share(|answers| - successes, |answers|)
    ensures successes > 0 ==> Measured(taken).rttMs == MeanMs(total, successes)
  {
    taken, successes, total := [], 0, 0;
    for i := 0 to |answers|
      invariant taken == Round(now, answers[..i]) && successes == Successes(taken) && total == TotalRtt(taken)
    {
      CountSnoc(taken, Sample(now, answers[i].rtt, answers[i].success));
      taken := taken + [Sample(now, answers[i].rtt, answers[i].success)];
      if answers[i].success {
        successes := successes + 1;
        total := total + answers[i].rtt;
      }
    }
    assert answers[..|answers|] == answers;
    SuccessesBounded(taken);
  }

  /** How many samples at the front lie before the cutoff. */
  function FrontBefore(s: seq<Sample>, cutoff: int): (n: nat)
    ensures n <= |s|
  {
    if s == [] || s[0].at >= cutoff then 0 else 1 + FrontBefore(s[1..], cutoff)
  }

  /** Drops samples before the cutoff, up to the first that is not. */
  method Prune(samples: seq<Sample>, cutoff: int) returns (kept: seq<Sample>)
    ensures kept == samples[FrontBefore(samples, cutoff)..]
    ensures AllBefore(samples[..|samples| - |kept|], cutoff) && (kept != [] ==> kept[0].at >= cutoff)
  {
    var first := 0;
    while first < |samples| && samples[first].at < cutoff
      invariant first <= |samples| && AllBefore(samples[..first], cutoff)
      invariant FrontBefore(samples, cutoff) == first + FrontBefore(samples[first..], cutoff)
    {
      assert samples[first..][1..] == samples[first + 1..];
      first := first + 1;
    }
    kept := samples[first..];
  }

  lemma FrontBeforeMeans(s: seq<Sample>, cutoff: int)
    ensures AllBefore(s[..FrontBefore(s, cutoff)], cutoff)
  {
    if s != [] && s[0].at < cutoff {
      FrontBeforeMeans(s[1..], cutoff);
      var n := FrontBefore(s, cutoff);
      forall i | 0 <= i < n ensures s[i].at < cutoff {
        assert i > 0 ==> s[1..][..n - 1][i - 1] == s[i];
      }
    }
  }

  lemma PrunedNext(all: seq<Sample>, dropped: seq<Sample>, probes: seq<Sample>, steady: bool,
                   taken: seq<Sample>, n: nat, now: int)
    requires Pruned(all, dropped, probes, steady) && n == FrontBefore(probes + taken, now - LONG)
    requires taken != [] && forall i :: 0 <= i < |taken| ==> taken[i].at == now
    ensures var steady' := steady && NotBack(all, now);
            var gone, kept := (probes + taken)[..n], (probes + taken)[n..];
            && Pruned(all + taken, dropped + gone, kept, steady')
            && InWindow(kept, now - SHORT) != [] && InWindow(kept, now - LONG) != []
            && (steady' ==> AllBefore(dropped + gone, now - SHORT) && AllBefore(dropped + gone, now - LONG))
            && (InWindow(all + taken, now - SHORT) == InWindow(kept, now - SHORT) <==> AllBefore(dropped + gone, now - SHORT))
            && (InWindow(all + taken, now - LONG) == InWindow(kept, now - LONG) <==> AllBefore(dropped + gone, now - LONG))
  {
    var gone, kept := (probes + taken)[..n], (probes + taken)[n..];
    FrontBeforeMeans(probes + taken, now - LONG);
    KeptLast(probes + taken, n, now);
    assert probes + taken == gone + kept && Last(kept).at == now;
    hide FrontBefore;
    PrunedStays(all, dropped, probes, steady, taken, gone, kept, now);
    hide InWindow, AllBefore, Pruned, NotBack;
    WindowsKept(dropped + gone, kept, now);
  }

  lemma PrunedStays(all: seq<Sample>, dropped: seq<Sample>, probes: seq<Sample>, steady: bool, taken: seq<Sample>,
                    gone: seq<Sample>, kept: seq<Sample>, now: int)
    requires Pruned(all, dropped, probes, steady) && probes + taken == gone + kept && AllBefore(gone, now - LONG)
    requires taken != [] && forall i :: 0 <= i < |taken| ==> taken[i].at == now
    ensures var steady' := steady && NotBack(all, now);
            && Pruned(all + taken, dropped + gone, kept, steady') && all + taken == (dropped + gone) + kept
            && (steady' ==> AllBefore(dropped + gone, now - SHORT) && AllBefore(dropped + gone, now - LONG))
  {
    if steady && NotBack(all, now) {
      InOrderNext(all, taken, now);
      BeforeNext(all, dropped, gone, now);
    }
    hide InOrder, NotBack, AllBefore;
    assert all + taken == dropped + (probes + taken) == (dropped + gone) + kept;
    assert Last(all + taken).at == now;
  }

  lemma WindowsKept(gone: seq<Sample>, kept: seq<Sample>, now: int)
    requires kept != [] && Last(kept).at == now
    ensures InWindow(kept, now - SHORT) != [] && InWindow(kept, now - LONG) != []
    ensures InWindow(gone + kept, now - SHORT) == InWindow(kept, now - SHORT) <==> AllBefore(gone, now - SHORT)
    ensures InWindow(gone + kept, now - LONG) == InWindow(kept, now - LONG) <==> AllBefore(gone, now - LONG)
  {
    LastInWindow(kept, now - SHORT);
    LastInWindow(kept, now - LONG);
    hide InWindow, AllBefore;
    PruningInvisibleIff(gone, kept, now - SHORT);
    PruningInvisibleIff(gone, kept, now - LONG);
  }

  lemma InOrderNext(all: seq<Sample>, taken: seq<Sample>, now: int)
    requires InOrder(all) && NotBack(all, now) && forall i :: 0 <= i < |taken| ==> taken[i].at == now
    ensures InOrder(all + taken)
  {
    forall i | 0 <= i < |all| ensures all[i].at <= now {
      assert all[i].at <= Last(all).at;
    }
  }

  lemma BeforeNext(all: seq<Sample>, dropped: seq<Sample>, gone: seq<Sample>, now: int)
    requires NotBack(all, now) && AllBefore(gone, now - LONG)
    requires if all == [] then dropped == [] else AllBefore(dropped, Last(all).at - LONG)
    ensures AllBefore(dropped + gone, now - LONG) && AllBefore(dropped + gone, now - SHORT)
  {
  }

  lemma LastInWindow(s: seq<Sample>, since: int)
    requires s != [] && Last(s).at >= since
    ensures InWindow(s, since) != []
  {
  }

  lemma KeptLast(whole: seq<Sample>, n: nat, now: int)
    requires n <= |whole| && whole != [] && Last(whole).at == now && AllBefore(whole[..n], now - LONG)
    ensures n < |whole|
  {
    forall i | 0 <= i < n ensures whole[i].at < now - LONG {
      assert whole[..n][i] == whole[i];
    }
  }

  /** Three rounds of a monitor, the clock going back before the last: a failed probe has been pruned that would
      belong to the last window, so the loss published is too low. */
  method ClockBackLosesSamples(start: int) returns (m: Monitor)
    ensures m.Valid() && !m.steady && |m.all| == 3
    ensures m.stats5m.loss == 0.0 && Measured(InWindow(m.all, start + 1 - LONG)).loss > 0.0
    ensures m.stats5m != Measured(InWindow(m.all, start + 1 - LONG))
  {
    var first, late, back := Sample(start, 1, false), Sample(start + LONG + 1, 1, true), Sample(start + 1, 1, true);
    FrontKept([first], start - LONG);
    FrontDropped([first], [late], start + 1);
    FrontKept([late] + [back], start + 1 - LONG);
    WindowAll([late, back], start + 1 - LONG);
    WindowAll([first, late, back], start + 1 - LONG);
    OneLost(first, late, back);
    NoneLost(late, back);
    assert [first] + [late] == [first, late] && [late] + [back] == [late, back] && [first, late] + [back] == [first, late, back];
    hide InWindow, Measured, AllBefore, FrontBefore, Pruned;
    m := new Monitor();
    assert m.probes + [first] == [first] && m.all + [first] == [first];
    OneProbe(m, first, 0);
    OneProbe(m, late, 1);
    assert m.probes == [late] && m.all == [first, late];
    OneProbe(m, back, 0);
    assert m.probes == [late, back] && m.all == [first, late, back];
  }

  /** A round of a single probe, of which the first n samples are pruned. */
  method OneProbe(m: Monitor, s: Sample, ghost n: nat)
    requires m.Valid() && n <= |m.probes| + 1 && FrontBefore(m.probes + [s], s.at - LONG) == n
    modifies m
    ensures m.Valid() && m.all == old(m.all) + [s] && m.probes == (old(m.probes) + [s])[n..]
    ensures m.steady == (old(m.steady) && NotBack(old(m.all), s.at))
    ensures m.stats5m == Measured(InWindow(m.probes, s.at - LONG))
  {
    RoundOne(s.at, Answer(s.rtt, s.success));
    hide Round, InWindow, Measured, AllBefore, FrontBefore, Pruned, Successes;
    var loss, rtt := m.ProbeOnce(s.at, [Answer(s.rtt, s.success)]);
  }

  lemma RoundOne(now: int, a: Answer)
    ensures Round(now, [a]) == [Sample(now, a.rtt, a.success)]
  {
  }

  lemma FrontKept(s: seq<Sample>, cutoff: int)
    requires s != [] && s[0].at >= cutoff
    ensures FrontBefore(s, cutoff) == 0
  {
  }

  lemma FrontDropped(a: seq<Sample>, b: seq<Sample>, cutoff: int)
    requires |a| == 1 && a[0].at < cutoff && b != [] && b[0].at >= cutoff
    ensures FrontBefore(a + b, cutoff) == 1
  {
    assert (a + b)[1..] == b;
  }

  lemma {:induction false} WindowAll(s: seq<Sample>, since: int)
    requires forall i :: 0 <= i < |s| ==> s[i].at >= since
    ensures InWindow(s, since) == s
  {
    if s != [] {
      var n := |s| - 1;
      WindowAll(s[..n], since);
      WindowSnoc(s[..n], s[n], since);
      hide InWindow;
      assert s == s[..n] + [s[n]];
    }
  }

  lemma OneLost(a: Sample, b: Sample, c: Sample)
    requires !a.success && b.success && c.success
    ensures Measured([a, b, c]).loss > 0.0
  {
    CountSnoc([], a);
    CountSnoc([a], b);
    CountSnoc([a, b], c);
    assert [] + [a] == [a] && [a] + [b] == [a, b] && [a, b] + [c] == [a, b, c];
    assert Share(1, 3) == 1.0 / 3.0;
  }

  lemma NoneLost(b: Sample, c: Sample)
    requires b.success && c.success
    ensures Measured([b, c]).loss == 0.0
  {
    CountSnoc([], b);
    CountSnoc([b], c);
    assert [] + [b] == [b] && [b] + [c] == [b, c];
    assert Share(0, 2) == 0.0;
  }
}
