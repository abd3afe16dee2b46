/** What the timeline publishes and saves, told from the observations and reports alone: when an unreachable outage is
    open, with which start and cause, everything published about it and about path outages, that every outage that
    ends is saved, and what becomes of each outage the dish reports. */
module OutageTold {
  import opened Basics
  import opened OutageTimeline
  import opened OutageTheorems

  // ---------------------------------------------------------------- unreachable outages

  /** The latest time until which the dish was expected to be unreachable. */
  function Deadline(ops: seq<Op>): int {
    if ops == [] then 0
    else
      var before, op := Deadline(Front(ops)), Last(ops);
      if op.Expect? && op.until > before then op.until else before
  }

  /** The first observation of the current failing run, as an index; None when the last one was not failing. */
  function FailingSince(ops: seq<Op>): Option<nat> {
    if ops == [] then None
    else if !Last(ops).Reach? then FailingSince(Front(ops))
    else if Last(ops).reachable then None
    else if FailingSince(Front(ops)).Some? then FailingSince(Front(ops)) else Some(|ops| - 1)
  }

  predicate Failing(op: Op) { op.Reach? && !op.reachable }

  /** That is what it computes: from there on every observation fails, and the one before, if any, did not. */
  lemma {:induction false} FailingSinceIsFirst(ops: seq<Op>)
    ensures FailingSince(ops).None? ==>
              forall i :: 0 <= i < |ops| && Failing(ops[i]) ==> exists j :: i < j < |ops| && ops[j].Reach? && ops[j].reachable
    ensures FailingSince(ops).Some? ==>
              var j := FailingSince(ops).value;
              && j < |ops| && Failing(ops[j]) && (forall i :: j <= i < |ops| && ops[i].Reach? ==> Failing(ops[i]))
              && forall i :: 0 <= i < j && Failing(ops[i]) ==> exists k :: i < k < j && ops[k].Reach? && ops[k].reachable
  {
    if ops != [] {
      var front, n := Front(ops), |ops| - 1;
      FailingSinceIsFirst(front);
      assert forall i :: 0 <= i < n ==> front[i] == ops[i];
      if FailingSince(ops).None? {
        forall i | 0 <= i < |ops| && Failing(ops[i]) ensures exists j :: i < j < |ops| && ops[j].Reach? && ops[j].reachable {
          if ops[n].Reach? {
            assert i < n;
          } else {
            var j :| i < j < n && front[j].Reach? && front[j].reachable;
            assert ops[j].Reach?;
          }
        }
      } else {
        var j := FailingSince(ops).value;
        forall i | 0 <= i < j && Failing(ops[i]) ensures exists k :: i < k < j && ops[k].Reach? && ops[k].reachable {
          var k :| i < k < n && front[k].Reach? && front[k].reachable && k < j;
          assert ops[k].Reach?;
        }
      }
    }
  }

  /** The outage that a failing observation opens: it began when the failures did, and its cause depends on whether
      the dish was expected to be unreachable. */
  function ReachEntry(ops: seq<Op>, j: nat): Entry
    requires j < |ops| && ops[j].Reach?
  {
    Entry(Unreachable, if ops[j].now < Deadline(ops[..j]) then "expected_reboot" else "grpc_unreachable",
          if ops[j].failureSince == 0 then ops[j].now else ops[j].failureSince, 0, true)
  }

  function FailingEntry(ops: seq<Op>): Option<Entry> {
    var j := FailingSince(ops);
    if j.Some? && j.value < |ops| && ops[j.value].Reach? then Some(ReachEntry(ops, j.value)) else None
  }

  /** The time from one moment to a later one, and nothing when the clock has gone back. */
  function Length(start: int, now: int): int { if now > start then now - start else 0 }

  function EndedAt(e: Entry, now: int): Entry { e.(duration := Length(e.start, now), ongoing := false) }

  /** What is to be published about the reachability of the dish. */
  function ReachTold(ops: seq<Op>): seq<Event> {
    if ops == [] then []
    else
      var before, op := Front(ops), Last(ops);
      ReachTold(before)
      + if Failing(op) && FailingSince(before).None? then [Event(Started, ReachEntry(ops, |before|))]
        else if op.Reach? && op.reachable && FailingEntry(before).Some? then [Event(Ended, EndedAt(FailingEntry(before).value, op.now))]
        else []
  }

  function EventsOf(events: seq<Event>, source: Source): seq<Event> {
    if events == [] then []
    else EventsOf(Front(events), source) + if Last(events).entry.source == source then [Last(events)] else []
  }

  lemma EventsOne(events: seq<Event>, e: Event, source: Source)
    ensures EventsOf(events + [e], source) == EventsOf(events, source) + if e.entry.source == source then [e] else []
  {
    assert Front(events + [e]) == events;
  }

  /** An unreachable outage is open exactly while the observations fail, as the first of them has it. */
  ghost predicate ReachAsObserved(c: Core, ops: seq<Op>) {
    && c.expectedUntil == Deadline(ops)
    && (ActiveSlot(Unreachable) in c.entries <==> FailingEntry(ops).Some?)
    && (ActiveSlot(Unreachable) in c.entries ==> c.entries[ActiveSlot(Unreachable)] == FailingEntry(ops).value)
    && (FailingSince(ops).Some? <==> FailingEntry(ops).Some?)
    && EventsOf(c.events, Unreachable) == ReachTold(ops)
  }

  /** Nothing about an unreachable outage changes. */
  predicate ReachKept(c: Core, d: Core) {
    && (ActiveSlot(Unreachable) in d.entries <==> ActiveSlot(Unreachable) in c.entries)
    && (ActiveSlot(Unreachable) in c.entries ==> d.entries[ActiveSlot(Unreachable)] == c.entries[ActiveSlot(Unreachable)])
    && EventsOf(d.events, Unreachable) == EventsOf(c.events, Unreachable)
  }

  lemma IngestOneReach(c: Core, r: Report)
    ensures ReachKept(c, IngestOne(c, r)) && IngestOne(c, r).expectedUntil == c.expectedUntil
  {
    var e := Entry(Dish, r.cause, r.start, r.duration, r.duration <= 0);
    EventsOne(c.events, Event(Started, e), Unreachable);
    EventsOne(c.events, Event(Ended, e), Unreachable);
    hide EventsOf;
  }

  lemma {:induction false} IngestReach(c: Core, reports: seq<Report>)
    ensures ReachKept(c, IngestAll(c, reports)) && IngestAll(c, reports).expectedUntil == c.expectedUntil
  {
    hide IngestOne, EventsOf;
    if reports != [] {
      IngestReach(c, reports[..|reports| - 1]);
      IngestOneReach(IngestAll(c, reports[..|reports| - 1]), reports[|reports| - 1]);
    }
  }

  lemma EndElsewhere(c: Core, now: int)
    requires ActiveSlot(Path) in c.entries && c.entries[ActiveSlot(Path)].source == Path
    ensures ReachKept(c, EndActive(c, Path, now)) && EndActive(c, Path, now).expectedUntil == c.expectedUntil
  {
    EventsOne(c.events, Event(Ended, EndedAt(c.entries[ActiveSlot(Path)], now)), Unreachable);
    hide EventsOf;
  }

  lemma PathReach(c: Core, now: int, lost: bool)
    requires ActiveSlot(Path) in c.entries ==> c.entries[ActiveSlot(Path)].source == Path
    ensures ReachKept(c, PathStep(c, now, lost)) && PathStep(c, now, lost).expectedUntil == c.expectedUntil
  {
    EventsOne(c.events, Event(Started, Entry(Path, "probe_loss", c.pathPending, 0, true)), Unreachable);
    hide EventsOf;
    if ActiveSlot(Path) in c.entries && !lost {
      EndElsewhere(c.(pathPending := UNSET), now);
      hide EndActive;
    }
  }

  lemma SinceOne(ops: seq<Op>, op: Op)
    ensures FailingSince(ops + [op]) ==
            if !op.Reach? then FailingSince(ops)
            else if op.reachable then None
            else if FailingSince(ops).Some? then FailingSince(ops) else Some(|ops|)
    ensures Deadline(ops + [op]) == if op.Expect? && op.until > Deadline(ops) then op.until else Deadline(ops)
  {
    var all := ops + [op];
    assert Front(all) == ops && Last(all) == op;
  }

  lemma SinceReach(ops: seq<Op>)
    ensures FailingSince(ops).Some? ==> FailingSince(ops).value < |ops| && ops[FailingSince(ops).value].Reach?
    ensures FailingSince(ops).Some? <==> FailingEntry(ops).Some?
  {
    FailingSinceIsFirst(ops);
  }

  lemma EntryLonger(ops: seq<Op>, op: Op, j: nat)
    requires j < |ops| && ops[j].Reach?
    ensures (ops + [op])[j].Reach? && ReachEntry(ops + [op], j) == ReachEntry(ops, j)
  {
    assert (ops + [op])[..j] == ops[..j] && (ops + [op])[j] == ops[j];
  }

  lemma FrontEntry(ops: seq<Op>, op: Op)
    ensures FailingEntry(ops + [op]) ==
            if !op.Reach? then FailingEntry(ops)
            else if op.reachable then None
            else if FailingEntry(ops).Some? then FailingEntry(ops) else Some(ReachEntry(ops + [op], |ops|))
  {
    SinceOne(ops, op);
    SinceReach(ops);
    if FailingSince(ops).Some? {
      EntryLonger(ops, op, FailingSince(ops).value);
    }
    hide FailingSince, Deadline, ReachEntry;
  }

  lemma ReachToldOne(ops: seq<Op>, op: Op)
    ensures ReachTold(ops + [op]) == ReachTold(ops)
      + if Failing(op) && FailingSince(ops).None? then [Event(Started, ReachEntry(ops + [op], |ops|))]
        else if op.Reach? && op.reachable && FailingEntry(ops).Some? then [Event(Ended, EndedAt(FailingEntry(ops).value, op.now))]
        else []
  {
    assert Front(ops + [op]) == ops && Last(ops + [op]) == op;
  }

  lemma BeginTells(c: Core, e: Entry)
    ensures EventsOf(BeginActive(c, e).events, e.source) == EventsOf(c.events, e.source) + [Event(Started, e)]
  {
    EventsOne(c.events, Event(Started, e), e.source);
  }

  lemma EndTells(c: Core, source: Source, now: int)
    requires ActiveSlot(source) in c.entries && c.entries[ActiveSlot(source)].source == source
    ensures var d := EndActive(c, source, now);
            && ActiveSlot(source) !in d.entries && d.expectedUntil == c.expectedUntil
            && EventsOf(d.events, source) == EventsOf(c.events, source) + [Event(Ended, EndedAt(c.entries[ActiveSlot(source)], now))]
  {
    EventsOne(c.events, Event(Ended, EndedAt(c.entries[ActiveSlot(source)], now)), source);
    hide EventsOf;
  }

  lemma ObservedReach(c: Core, ops: seq<Op>, op: Op)
    requires op.Reach? && ReachAsObserved(c, ops)
    ensures ReachAsObserved(Apply(c, op), ops + [op])
  {
    var all := ops + [op];
    SinceOne(ops, op);
    SinceReach(ops);
    SinceReach(all);
    FrontEntry(ops, op);
    ReachToldOne(ops, op);
    assert all[..|ops|] == ops && all[|ops|] == op;
    hide EventsOf, ReachTold, FailingEntry, FailingSince, Deadline;
    if Failing(op) && FailingEntry(ops).None? {
      BeginTells(c, ReachEntry(all, |ops|));
    } else if !Failing(op) && FailingEntry(ops).Some? {
      EndedIs(ops);
      hide EndActive, EndedAt;
      EndTells(c, Unreachable, op.now);
    }
  }

  lemma EndedIs(ops: seq<Op>)
    requires FailingEntry(ops).Some?
    ensures FailingEntry(ops).value.source == Unreachable
  {
  }

  lemma OtherReach(c: Core, ops: seq<Op>, op: Op)
    requires !op.Reach? && ReachAsObserved(c, ops)
    requires ActiveSlot(Path) in c.entries ==> c.entries[ActiveSlot(Path)].source == Path
    ensures ReachAsObserved(Apply(c, op), ops + [op])
  {
    SinceOne(ops, op);
    FrontEntry(ops, op);
    ReachToldOne(ops, op);
    SinceReach(ops);
    SinceReach(ops + [op]);
    match op {
      case Expect(_) =>
      case Ingest(now, reports) => IngestReach(Prune(c, now), reports);
      case Probe(now, connected, allLost) => PathReach(c, now, connected && allLost);
    }
    hide EventsOf, ReachTold, FailingEntry, FailingSince, Deadline, IngestAll, PathStep;
  }

  lemma PathSource(persistent: bool, ops: seq<Op>)
    ensures var c := Run(Empty(persistent), ops); ActiveSlot(Path) in c.entries ==> c.entries[ActiveSlot(Path)].source == Path
  {
    RunSound(persistent, ops);
  }

  /** Over every run: an unreachable outage is open if and only if the last reachability observation failed; it began
      when the first failure of that run did, and its cause says whether the dish was then expected to be away. The
      first observation that succeeds ends it with the time since then, and this is all that is published about it. */
  lemma {:induction false} ReachExactly(persistent: bool, ops: seq<Op>)
    ensures ReachAsObserved(Run(Empty(persistent), ops), ops)
  {
    if ops == [] {
      assert EventsOf([], Unreachable) == [];
    } else {
      var front, op := Front(ops), Last(ops);
      ReachExactly(persistent, front);
      PathSource(persistent, front);
      assert ops == front + [op];
      hide ReachAsObserved, Apply;
      if op.Reach? {
        ObservedReach(Run(Empty(persistent), front), front, op);
      } else {
        OtherReach(Run(Empty(persistent), front), front, op);
      }
    }
  }

  // ---------------------------------------------------------------- path outages

  function PathEntry(start: int): Entry { Entry(Path, "probe_loss", start, 0, true) }

  /** What an observation of the path lets publish: a start when the losses have now lasted for the hold time, and
      an end when they had and this is not a loss. */
  function PathNews(probes: seq<Op>, op: Op): seq<Event>
    requires op.Probe?
  {
    var all, r := probes + [op], RunStart(probes);
    if Lost(op) && !HeldOut(probes, r) && HeldOut(all, r) && r < |all| && all[r].Probe? then [Event(Started, PathEntry(all[r].now))]
    else if !Lost(op) && HeldOut(probes, r) && r < |probes| && probes[r].Probe? then
      [Event(Ended, EndedAt(PathEntry(probes[r].now), op.now))]
    else []
  }

  function PathTold(ops: seq<Op>): seq<Event> {
    if ops == [] then []
    else PathTold(Front(ops)) + if Last(ops).Probe? then PathNews(Probes(Front(ops)), Last(ops)) else []
  }

  lemma PathStarts(c: Core, probes: seq<Op>, op: Op)
    requires Lost(op) && op.now != UNSET && PathAsObserved(c, probes)
    requires forall i :: 0 <= i < |probes| ==> probes[i].now != UNSET
    ensures EventsOf(Apply(c, op).events, Path) == EventsOf(c.events, Path) + PathNews(probes, op)
  {
    var all, r := probes + [op], RunStart(probes);
    assert Front(all) == probes && Last(all) == op;
    PathStepAsObserved(c, probes, op);
    EventsOne(c.events, Event(Started, PathEntry(c.pathPending)), Path);
    hide EventsOf;
    if HeldOut(probes, r) {
      var k :| r <= k < |probes| && probes[k].now - probes[r].now >= PATH_HOLD;
      assert all[k].now - all[r].now >= PATH_HOLD;
    }
  }

  lemma PathEnds(c: Core, probes: seq<Op>, op: Op)
    requires op.Probe? && !Lost(op) && PathAsObserved(c, probes)
    ensures EventsOf(Apply(c, op).events, Path) == EventsOf(c.events, Path) + PathNews(probes, op)
  {
    if ActiveSlot(Path) in c.entries {
      EndTells(c.(pathPending := UNSET), Path, op.now);
    }
    hide EventsOf, EndActive, RunStart;
  }

  /** Nothing about a path outage is published. */
  predicate PathQuiet(c: Core, d: Core) { EventsOf(d.events, Path) == EventsOf(c.events, Path) }

  lemma {:induction false} IngestPath(c: Core, reports: seq<Report>)
    ensures PathQuiet(c, IngestAll(c, reports))
  {
    if reports != [] {
      var before, r := IngestAll(c, reports[..|reports| - 1]), reports[|reports| - 1];
      IngestPath(c, reports[..|reports| - 1]);
      EventsOne(before.events, Event(Started, Entry(Dish, r.cause, r.start, r.duration, r.duration <= 0)), Path);
      EventsOne(before.events, Event(Ended, Entry(Dish, r.cause, r.start, r.duration, r.duration <= 0)), Path);
      hide EventsOf, IngestAll;
    }
  }

  lemma ReachPath(c: Core, now: int, reachable: bool, failureSince: int)
    requires ActiveSlot(Unreachable) in c.entries ==> c.entries[ActiveSlot(Unreachable)].source == Unreachable
    ensures PathQuiet(c, ReachStep(c, now, reachable, failureSince))
  {
    var cause := if now < c.expectedUntil then "expected_reboot" else "grpc_unreachable";
    EventsOne(c.events, Event(Started, Entry(Unreachable, cause, if failureSince == UNSET then now else failureSince, 0, true)), Path);
    if ActiveSlot(Unreachable) in c.entries {
      EventsOne(c.events, Event(Ended, EndedAt(c.entries[ActiveSlot(Unreachable)], now)), Path);
    }
    hide EventsOf;
  }

  /** Over every run, everything published about path outages is what the path observations call for. */
  lemma {:induction false} PathExactly(persistent: bool, ops: seq<Op>)
    requires forall i :: 0 <= i < |ops| && ops[i].Probe? ==> ops[i].now != UNSET
    ensures EventsOf(Run(Empty(persistent), ops).events, Path) == PathTold(ops)
  {
    if ops != [] {
      var front, op := Front(ops), Last(ops);
      var c := Run(Empty(persistent), front);
      PathExactly(persistent, front);
      PathOpensExactly(persistent, front);
      hide PathAsObserved, Probes, PathNews, EventsOf;
      match op {
        case Expect(_) =>
        case Ingest(now, reports) => IngestPath(Prune(c, now), reports);
        case Reach(now, reachable, failureSince) =>
          RunSound(persistent, front);
          ReachPath(c, now, reachable, failureSince);
        case Probe(_, _, _) =>
          if Lost(op) {
            PathStarts(c, Probes(front), op);
          } else {
            PathEnds(c, Probes(front), op);
          }
      }
      hide IngestAll, ReachStep, PathStep;
    } else {
      assert EventsOf([], Path) == [];
    }
  }

  // ---------------------------------------------------------------- what ends is saved

  function EntriesOf(saved: seq<Entry>, source: Source): seq<Entry> {
    if saved == [] then []
    else EntriesOf(Front(saved), source) + if Last(saved).source == source then [Last(saved)] else []
  }

  /** The outages whose end was published. */
  function EndedOf(events: seq<Event>, source: Source): seq<Entry> {
    if events == [] then []
    else EndedOf(Front(events), source)
         + if Last(events).kind == Ended && Last(events).entry.source == source then [Last(events).entry] else []
  }

  lemma EntriesOne(saved: seq<Entry>, e: Entry, source: Source)
    ensures EntriesOf(saved + [e], source) == EntriesOf(saved, source) + if e.source == source then [e] else []
  {
    assert Front(saved + [e]) == saved;
  }

  lemma EndedOne(events: seq<Event>, e: Event, source: Source)
    ensures EndedOf(events + [e], source)
         == EndedOf(events, source) + if e.kind == Ended && e.entry.source == source then [e.entry] else []
  {
    assert Front(events + [e]) == events;
  }

  predicate SavedAsEnded(c: Core, source: Source) {
    EntriesOf(c.saved, source) == if c.persistent then EndedOf(c.events, source) else []
  }

  lemma IngestOneSaved(c: Core, r: Report, source: Source)
    requires SavedAsEnded(c, source) && source != Dish
    ensures SavedAsEnded(IngestOne(c, r), source)
  {
    var e := Entry(Dish, r.cause, r.start, r.duration, r.duration <= 0);
    EntriesOne(c.saved, e, source);
    EndedOne(c.events, Event(Started, e), source);
    EndedOne(c.events, Event(Ended, e), source);
    hide EntriesOf, EndedOf;
  }

  lemma {:induction false} IngestSaved(c: Core, reports: seq<Report>, source: Source)
    requires SavedAsEnded(c, source) && source != Dish
    ensures SavedAsEnded(IngestAll(c, reports), source)
  {
    hide IngestOne, SavedAsEnded;
    if reports != [] {
      IngestSaved(c, reports[..|reports| - 1], source);
      IngestOneSaved(IngestAll(c, reports[..|reports| - 1]), reports[|reports| - 1], source);
    }
  }

  lemma EndSaved(c: Core, own: Source, now: int, source: Source)
    requires ActiveSlot(own) in c.entries && SavedAsEnded(c, source)
    ensures SavedAsEnded(EndActive(c, own, now), source)
  {
    var e := EndedAt(c.entries[ActiveSlot(own)], now);
    EntriesOne(c.saved, e, source);
    EndedOne(c.events, Event(Ended, e), source);
    hide EntriesOf, EndedOf;
  }

  lemma BeginSaved(c: Core, e: Entry, source: Source)
    requires SavedAsEnded(c, source)
    ensures SavedAsEnded(BeginActive(c, e), source)
  {
    EndedOne(c.events, Event(Started, e), source);
    hide EntriesOf, EndedOf;
  }

  lemma ApplySaved(c: Core, op: Op, source: Source)
    requires SavedAsEnded(c, source) && source != Dish
    ensures SavedAsEnded(Apply(c, op), source)
  {
    hide EntriesOf, EndedOf;
    match op
    case Expect(_) =>
    case Ingest(now, reports) => IngestSaved(Prune(c, now), reports, source);
    case Reach(now, reachable, failureSince) =>
      if ActiveSlot(Unreachable) in c.entries {
        EndSaved(c, Unreachable, now, source);
      } else {
        var cause := if now < c.expectedUntil then "expected_reboot" else "grpc_unreachable";
        BeginSaved(c, Entry(Unreachable, cause, if failureSince == UNSET then now else failureSince, 0, true), source);
      }
    case Probe(now, _, _) =>
      if ActiveSlot(Path) in c.entries {
        EndSaved(c.(pathPending := UNSET), Path, now, source);
      } else {
        BeginSaved(c, PathEntry(c.pathPending), source);
      }
  }

  /** Over every run, the unreachable and path outages given to persistence are exactly those whose end was published,
      in the same order and with the same lengths. */
  lemma {:induction false} EndedAreSaved(persistent: bool, ops: seq<Op>, source: Source)
    requires source != Dish
    ensures SavedAsEnded(Run(Empty(persistent), ops), source)
  {
    if ops != [] {
      EndedAreSaved(persistent, Front(ops), source);
      hide Apply, SavedAsEnded;
      ApplySaved(Run(Empty(persistent), Front(ops)), Last(ops), source);
    } else {
      assert EntriesOf([], source) == [] && EndedOf([], source) == [];
    }
  }

  // ---------------------------------------------------------------- outages the dish reports

  /** One outage as the dish reports it: whether it is open, its length while it is remembered as closed, what was
      published about it, and every length it was closed with. */
  datatype Watch = Watch(open: bool, closed: Option<int>, told: seq<Event>, kept: seq<Entry>)

  function DishEntry(cause: string, start: int, duration: int): Entry { Entry(Dish, cause, start, duration, duration <= 0) }

  /** A report without a length opens the outage, unless it is open, is remembered as closed or, without persistence,
      was ever closed. One with a length closes it, unless it is remembered as closed with at least that length. */
  function Watched(w: Watch, persistent: bool, cause: string, start: int, r: Report): Watch {
    var e := DishEntry(cause, start, r.duration);
    if r.cause != cause || r.start != start then w
    else if r.duration <= 0 then
      if w.open || w.closed.Some? || (!persistent && w.kept != []) then w
      else w.(open := true, told := w.told + [Event(Started, e)])
    else if w.closed.Some? && r.duration <= w.closed.value then w
    else Watch(false, Some(r.duration), w.told + (if w.open then [Event(Ended, e)] else []), w.kept + [e])
  }

  function WatchedAll(w: Watch, persistent: bool, cause: string, start: int, reports: seq<Report>): Watch {
    if reports == [] then w
    else Watched(WatchedAll(w, persistent, cause, start, reports[..|reports| - 1]), persistent, cause, start, reports[|reports| - 1])
  }

  /** A closed outage is forgotten an hour after its end. */
  function Forgotten(w: Watch, start: int, now: int): Watch {
    if w.closed.Some? && start + w.closed.value != 0 && start + w.closed.value < now - 3_600_000_000_000 then w.(closed := None) else w
  }

  function WatchOf(persistent: bool, ops: seq<Op>, cause: string, start: int): Watch {
    if ops == [] then Watch(false, None, [], [])
    else
      var before, op := WatchOf(persistent, Front(ops), cause, start), Last(ops);
      if op.Ingest? then WatchedAll(Forgotten(before, start, op.now), persistent, cause, start, op.reports) else before
  }

  function EventsAbout(events: seq<Event>, id: Slot): seq<Event> {
    if events == [] then []
    else EventsAbout(Front(events), id) + if SlotOf(Last(events).entry) == id then [Last(events)] else []
  }

  function EntriesAbout(saved: seq<Entry>, id: Slot): seq<Entry> {
    if saved == [] then []
    else EntriesAbout(Front(saved), id) + if SlotOf(Last(saved)) == id then [Last(saved)] else []
  }

  lemma AboutEvent(events: seq<Event>, e: Event, id: Slot)
    ensures EventsAbout(events + [e], id) == EventsAbout(events, id) + if SlotOf(e.entry) == id then [e] else []
  {
    assert Front(events + [e]) == events;
  }

  lemma AboutEntry(saved: seq<Entry>, e: Entry, id: Slot)
    ensures EntriesAbout(saved + [e], id) == EntriesAbout(saved, id) + if SlotOf(e) == id then [e] else []
  {
    assert Front(saved + [e]) == saved;
  }

  /** The timeline holds of one dish outage just what its own reports say. */
  predicate AsReported(c: Core, id: Slot, w: Watch)
    requires DishSlot(id)
  {
    && (id in c.entries <==> w.open || (!c.persistent && w.kept != []))
    && (id in c.entries ==> (c.entries[id].ongoing <==> w.open))
    && (w.closed.Some? ==> !w.open)
    && (id in c.seen <==> w.closed.Some?)
    && (id in c.seen ==> c.seen[id] == Seen(w.closed.value, id.start + w.closed.value))
    && EventsAbout(c.events, id) == w.told
    && EntriesAbout(c.saved, id) == (if c.persistent then w.kept else [])
  }

  predicate DishSlot(id: Slot) { id.EntrySlot? && id.source == Dish && id.start != UNSET }

  lemma IngestOneReported(c: Core, id: Slot, w: Watch, r: Report)
    requires DishSlot(id) && AsReported(c, id, w)
    ensures AsReported(IngestOne(c, r), id, Watched(w, c.persistent, id.cause, id.start, r))
    ensures IngestOne(c, r).persistent == c.persistent
  {
    var e := DishEntry(r.cause, r.start, r.duration);
    AboutEvent(c.events, Event(Started, e), id);
    AboutEvent(c.events, Event(Ended, e), id);
    AboutEntry(c.saved, e, id);
    hide EventsAbout, EntriesAbout;
  }

  lemma {:induction false} IngestReported(c: Core, id: Slot, w: Watch, reports: seq<Report>)
    requires DishSlot(id) && AsReported(c, id, w)
    ensures AsReported(IngestAll(c, reports), id, WatchedAll(w, c.persistent, id.cause, id.start, reports))
    ensures IngestAll(c, reports).persistent == c.persistent
  {
    hide IngestOne, AsReported, Watched;
    if reports != [] {
      var n := |reports| - 1;
      IngestReported(c, id, w, reports[..n]);
      IngestOneReported(IngestAll(c, reports[..n]), id, WatchedAll(w, c.persistent, id.cause, id.start, reports[..n]), reports[n]);
    }
  }

  lemma PruneReported(c: Core, id: Slot, w: Watch, now: int)
    requires DishSlot(id) && AsReported(c, id, w)
    ensures AsReported(Prune(c, now), id, Forgotten(w, id.start, now)) && Prune(c, now).persistent == c.persistent
  {
    hide EventsAbout, EntriesAbout;
  }

  /** Entries of other sources, and their ends, concern no dish outage. */
  lemma EndReported(c: Core, own: Source, now: int, id: Slot, w: Watch)
    requires ActiveSlot(own) in c.entries && c.entries[ActiveSlot(own)].source == own != Dish
    requires DishSlot(id) && AsReported(c, id, w)
    ensures AsReported(EndActive(c, own, now), id, w)
  {
    var e := EndedAt(c.entries[ActiveSlot(own)], now);
    AboutEvent(c.events, Event(Ended, e), id);
    AboutEntry(c.saved, e, id);
    hide EventsAbout, EntriesAbout;
  }

  lemma BeginReported(c: Core, e: Entry, id: Slot, w: Watch)
    requires e.source != Dish && DishSlot(id) && AsReported(c, id, w)
    ensures AsReported(BeginActive(c, e), id, w)
  {
    AboutEvent(c.events, Event(Started, e), id);
    hide EventsAbout, EntriesAbout;
  }

  lemma OtherReported(c: Core, id: Slot, w: Watch, op: Op)
    requires !op.Ingest? && DishSlot(id) && AsReported(c, id, w)
    requires forall s :: s != Dish && ActiveSlot(s) in c.entries ==> c.entries[ActiveSlot(s)].source == s
    ensures AsReported(Apply(c, op), id, w)
  {
    hide EventsAbout, EntriesAbout;
    match op
    case Expect(_) =>
    case Reach(now, reachable, failureSince) =>
      if ActiveSlot(Unreachable) in c.entries {
        EndReported(c, Unreachable, now, id, w);
      } else {
        var cause := if now < c.expectedUntil then "expected_reboot" else "grpc_unreachable";
        BeginReported(c, Entry(Unreachable, cause, if failureSince == UNSET then now else failureSince, 0, true), id, w);
      }
    case Probe(now, _, _) =>
      if ActiveSlot(Path) in c.entries {
        EndReported(c.(pathPending := UNSET), Path, now, id, w);
      } else {
        BeginReported(c, PathEntry(c.pathPending), id, w);
      }
  }

  lemma ActiveSources(persistent: bool, ops: seq<Op>)
    ensures var c := Run(Empty(persistent), ops);
            forall s :: s != Dish && ActiveSlot(s) in c.entries ==> c.entries[ActiveSlot(s)].source == s
  {
    RunSound(persistent, ops);
  }

  lemma {:induction false} RunPersistent(persistent: bool, ops: seq<Op>)
    ensures Run(Empty(persistent), ops).persistent == persistent
  {
    if ops != [] {
      var c := Run(Empty(persistent), ops[..|ops| - 1]);
      RunPersistent(persistent, ops[..|ops| - 1]);
      match ops[|ops| - 1]
      case Ingest(now, reports) => IngestPersistent(Prune(c, now), reports);
      case _ =>
    }
  }

  lemma {:induction false} IngestPersistent(c: Core, reports: seq<Report>)
    ensures IngestAll(c, reports).persistent == c.persistent
  {
    if reports != [] {
      IngestPersistent(c, reports[..|reports| - 1]);
    }
  }

  /** Over every run: whether a dish outage is open, what was published about it and what was saved of it follow from
      its own reports, and from when they came, alone. */
  lemma {:induction false} DishExactly(persistent: bool, ops: seq<Op>, cause: string, start: int)
    requires start != UNSET
    ensures AsReported(Run(Empty(persistent), ops), EntrySlot(Dish, cause, start), WatchOf(persistent, ops, cause, start))
  {
    var id := EntrySlot(Dish, cause, start);
    if ops == [] {
      assert EventsAbout([], id) == [] && EntriesAbout([], id) == [];
    } else {
      var front, op := Front(ops), Last(ops);
      var c, w := Run(Empty(persistent), front), WatchOf(persistent, front, cause, start);
      DishExactly(persistent, front, cause, start);
      RunPersistent(persistent, front);
      ActiveSources(persistent, front);
      hide AsReported, Watched, IngestAll, ReachStep, PathStep, ExpectStep, Prune, Forgotten;
      if op.Ingest? {
        PruneReported(c, id, w, op.now);
        IngestReported(Prune(c, op.now), id, Forgotten(w, start, op.now), op.reports);
      } else {
        OtherReported(c, id, w, op);
      }
    }
  }

  /** Ever longer, and remembered with the greatest length. */
  predicate Growing(w: Watch) {
    && (forall i, j :: 0 <= i < j < |w.kept| ==> w.kept[i].duration < w.kept[j].duration)
    && (forall i :: 0 <= i < |w.kept| ==> w.kept[i].duration > 0)
    && (w.closed.Some? <==> w.kept != []) && (w.kept != [] ==> w.closed.value == Last(w.kept).duration)
  }

  lemma ReportGrows(w: Watch, persistent: bool, cause: string, start: int, r: Report)
    requires Growing(w)
    ensures Growing(Watched(w, persistent, cause, start, r))
  {
  }

  lemma {:induction false} ReportsGrow(w: Watch, persistent: bool, cause: string, start: int, reports: seq<Report>)
    requires Growing(w)
    ensures Growing(WatchedAll(w, persistent, cause, start, reports))
  {
    hide Growing, Watched;
    if reports != [] {
      var n := |reports| - 1;
      ReportsGrow(w, persistent, cause, start, reports[..n]);
      ReportGrows(WatchedAll(w, persistent, cause, start, reports[..n]), persistent, cause, start, reports[n]);
    }
  }

  lemma {:induction false} WatchGrows(persistent: bool, ops: seq<Op>, cause: string, start: int)
    requires start > 0 && forall i :: 0 <= i < |ops| && ops[i].Ingest? ==> ops[i].now <= start + HOUR
    ensures Growing(WatchOf(persistent, ops, cause, start))
  {
    hide Watched;
    if ops != [] {
      WatchGrows(persistent, Front(ops), cause, start);
      if Last(ops).Ingest? {
        var w := WatchOf(persistent, Front(ops), cause, start);
        assert Forgotten(w, start, Last(ops).now) == w;
        ReportsGrow(w, persistent, cause, start, Last(ops).reports);
      }
    }
  }

  /** So in the hour after it began an outage is saved again only when it is reported longer than before. */
  lemma SavedGrowing(persistent: bool, ops: seq<Op>, cause: string, start: int)
    requires start > 0 && forall i :: 0 <= i < |ops| && ops[i].Ingest? ==> ops[i].now <= start + HOUR
    ensures var saved := EntriesAbout(Run(Empty(persistent), ops).saved, EntrySlot(Dish, cause, start));
            forall i, j :: 0 <= i < j < |saved| ==> saved[i].duration < saved[j].duration
  {
    hide Run, WatchOf, EntriesAbout;
    DishExactly(persistent, ops, cause, start);
    RunPersistent(persistent, ops);
    WatchGrows(persistent, ops, cause, start);
  }
}
