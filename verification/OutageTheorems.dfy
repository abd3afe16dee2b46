/** Properties of the outage timeline over whole runs of reports and observations. */
module OutageTheorems {
  import opened OutageTimeline

  // ---------------------------------------------------------------- runs

  datatype Op =
    | Expect(until: int)
    | Ingest(now: int, reports: seq<Report>)
    | Reach(now: int, reachable: bool, failureSince: int)
    | Probe(now: int, connected: bool, allLost: bool)

  function Apply(c: Core, op: Op): Core {
    match op
    case Expect(until) => ExpectStep(c, until)
    case Ingest(now, reports) => IngestStep(c, now, reports)
    case Reach(now, reachable, failureSince) => ReachStep(c, now, reachable, failureSince)
    case Probe(now, connected, allLost) => PathStep(c, now, connected && allLost)
  }

  function Run(c: Core, ops: seq<Op>): Core {
    if ops == [] then c else Apply(Run(c, ops[..|ops| - 1]), ops[|ops| - 1])
  }

  // ---------------------------------------------------------------- starts and ends alternate

  /** Whether the last event of an identity was a start. */
  function LastStarted(events: seq<Event>, id: Slot): bool {
    if events == [] then false
    else
      var e := events[|events| - 1];
      if SlotOf(e.entry) == id then e.kind == Started else LastStarted(events[..|events| - 1], id)
  }

  /** An identity's events are start, end, start, ... in turn, beginning with a start. */
  predicate Alternates(events: seq<Event>, id: Slot) {
    events == [] ||
    (var before, e := events[..|events| - 1], events[|events| - 1];
     Alternates(before, id) && (SlotOf(e.entry) == id ==> (e.kind == Started <==> !LastStarted(before, id))))
  }

  /** The entry that would be open under an identity. */
  function HomeOf(id: Slot): Slot {
    if id.source == Dish then id else ActiveSlot(id.source)
  }

  /** An ongoing entry with this identity is kept. */
  predicate Open(c: Core, id: Slot) {
    var home := HomeOf(id);
    home in c.entries && c.entries[home].ongoing && SlotOf(c.entries[home]) == id
  }

  /** Entries are where they belong: the two active slots hold ongoing unreachable and path outages, and
      only dish outages are ever ongoing elsewhere. */
  predicate Placed(c: Core) {
    forall k :: k in c.entries ==>
      match k
      case ActiveSlot(s) => s != Dish && c.entries[k].source == s && c.entries[k].ongoing
      case EntrySlot(s, _, _) => SlotOf(c.entries[k]) == k && (c.entries[k].ongoing ==> s == Dish)
  }

  /** What was published about an identity matches what is open. */
  predicate Told(c: Core, id: Slot) {
    Alternates(c.events, id) && (Open(c, id) <==> LastStarted(c.events, id))
  }

  /** Only closed outages of nonnegative length are handed to persistence. */
  predicate SavedClosed(c: Core) {
    && (forall i :: 0 <= i < |c.saved| ==> !c.saved[i].ongoing && c.saved[i].duration >= 0)
    && (!c.persistent ==> c.saved == [])
  }

  ghost predicate Sound(c: Core) {
    Placed(c) && SavedClosed(c) && forall id: Slot :: id.EntrySlot? ==> Told(c, id)
  }

  lemma PublishedOne(events: seq<Event>, e: Event, id: Slot)
    ensures Alternates(events + [e], id) <==>
            Alternates(events, id) && (SlotOf(e.entry) == id ==> (e.kind == Started <==> !LastStarted(events, id)))
    ensures LastStarted(events + [e], id) == if SlotOf(e.entry) == id then e.kind == Started else LastStarted(events, id)
  {
    assert (events + [e])[..|events|] == events;
  }

  lemma IngestOneSound(c: Core, r: Report)
    requires Sound(c)
    ensures Sound(IngestOne(c, r))
  {
    IngestOnePlaced(c, r);
    hide Placed;
    hide SavedClosed;
    forall id: Slot | id.EntrySlot? ensures Told(IngestOne(c, r), id) {
      IngestOneTold(c, r, id);
    }
  }

  lemma IngestOnePlaced(c: Core, r: Report)
    requires Placed(c) && SavedClosed(c)
    ensures Placed(IngestOne(c, r)) && SavedClosed(IngestOne(c, r))
  {
  }

  lemma IngestOneTold(c: Core, r: Report, id: Slot)
    requires Placed(c) && id.EntrySlot? && Told(c, id)
    ensures Told(IngestOne(c, r), id)
  {
    hide Alternates;
    hide LastStarted;
    var incoming := Entry(Dish, r.cause, r.start, r.duration, r.duration <= 0);
    PublishedOne(c.events, Event(Started, incoming), id);
    PublishedOne(c.events, Event(Ended, incoming), id);
  }

  lemma {:induction false} IngestAllSound(c: Core, reports: seq<Report>)
    requires Sound(c)
    ensures Sound(IngestAll(c, reports))
  {
    hide Sound;
    if reports != [] {
      IngestAllSound(c, reports[..|reports| - 1]);
      IngestOneSound(IngestAll(c, reports[..|reports| - 1]), reports[|reports| - 1]);
    }
  }

  lemma PruneSound(c: Core, now: int)
    requires Sound(c)
    ensures Sound(Prune(c, now))
  {
    forall id: Slot | id.EntrySlot? ensures Told(Prune(c, now), id) {
      assert Told(c, id);
    }
  }

  lemma EndSound(c: Core, source: Source, now: int)
    requires Sound(c) && source != Dish && ActiveSlot(source) in c.entries
    ensures Sound(EndActive(c, source, now))
  {
    hide Alternates;
    hide LastStarted;
    var d := EndActive(c, source, now);
    var current := c.entries[ActiveSlot(source)];
    var e := current.(duration := Max0(now - current.start), ongoing := false);
    forall id: Slot | id.EntrySlot? ensures Told(d, id) {
      assert Told(c, id);
      PublishedOne(c.events, Event(Ended, e), id);
    }
  }

  lemma BeginSound(c: Core, e: Entry)
    requires Sound(c) && e.source != Dish && e.ongoing && ActiveSlot(e.source) !in c.entries
    ensures Sound(BeginActive(c, e))
  {
    hide Alternates;
    hide LastStarted;
    var d := BeginActive(c, e);
    forall id: Slot | id.EntrySlot? ensures Told(d, id) {
      assert Told(c, id);
      PublishedOne(c.events, Event(Started, e), id);
    }
  }

  lemma MarkSound(c: Core, pending: int, expected: int)
    requires Sound(c)
    ensures Sound(c.(pathPending := pending, expectedUntil := expected))
  {
    forall id: Slot | id.EntrySlot? ensures Told(c.(pathPending := pending, expectedUntil := expected), id) {
      assert Told(c, id);
    }
  }

  lemma ApplySound(c: Core, op: Op)
    requires Sound(c)
    ensures Sound(Apply(c, op))
  {
    hide Sound;
    match op
    case Expect(until) => MarkSound(c, c.pathPending, until);
    case Ingest(now, reports) =>
      PruneSound(c, now);
      IngestAllSound(Prune(c, now), reports);
    case Reach(now, reachable, failureSince) =>
      if ActiveSlot(Unreachable) in c.entries {
        EndSound(c, Unreachable, now);
      } else {
        var cause := if now < c.expectedUntil then "expected_reboot" else "grpc_unreachable";
        BeginSound(c, Entry(Unreachable, cause, if failureSince == UNSET then now else failureSince, 0, true));
      }
    case Probe(now, _, _) =>
      MarkSound(c, UNSET, c.expectedUntil);
      MarkSound(c, now, c.expectedUntil);
      if ActiveSlot(Path) in c.entries {
        EndSound(c.(pathPending := UNSET), Path, now);
      } else {
        BeginSound(c, Entry(Path, "probe_loss", c.pathPending, 0, true));
      }
  }

  /** Over every run, with pruning and in either persistence mode: the published starts and ends of each
      outage identity alternate beginning with a start, an entry is ongoing exactly when its last event
      was a start, and persistence is only ever given closed outages of nonnegative length. */
  lemma {:induction false} RunSound(persistent: bool, ops: seq<Op>)
    ensures Sound(Run(Empty(persistent), ops))
  {
    if ops != [] {
      RunSound(persistent, ops[..|ops| - 1]);
      ApplySound(Run(Empty(persistent), ops[..|ops| - 1]), ops[|ops| - 1]);
    }
  }

  /** At most one unreachable and at most one path outage is open at a time. */
  lemma OneOpenPerSource(persistent: bool, ops: seq<Op>, a: Slot, b: Slot)
    requires a.EntrySlot? && b.EntrySlot? && a.source == b.source != Dish
    requires var c := Run(Empty(persistent), ops); LastStarted(c.events, a) && LastStarted(c.events, b)
    ensures a == b
  {
    var c := Run(Empty(persistent), ops);
    RunSound(persistent, ops);
    assert Told(c, a) && Told(c, b);
  }

  // ---------------------------------------------------------------- path outages

  /** The path observations of a run. */
  function Probes(ops: seq<Op>): seq<Op> {
    if ops == [] then []
    else Probes(ops[..|ops| - 1]) + (if ops[|ops| - 1].Probe? then [ops[|ops| - 1]] else [])
  }

  predicate Lost(op: Op) { op.Probe? && op.connected && op.allLost }

  /** The index of the first observation of the unbroken run of losses that reaches to the end. */
  function RunStart(probes: seq<Op>): nat {
    if probes == [] then 0
    else if !Lost(probes[|probes| - 1]) then |probes| else RunStart(probes[..|probes| - 1])
  }

  lemma {:induction false} RunStartIsFirst(probes: seq<Op>)
    ensures var r := RunStart(probes);
            && r <= |probes| && (forall i :: r <= i < |probes| ==> Lost(probes[i]))
            && (r > 0 ==> !Lost(probes[r - 1]))
  {
    if probes != [] && Lost(probes[|probes| - 1]) {
      RunStartIsFirst(probes[..|probes| - 1]);
    }
  }

  /** The losses of the current run have lasted for the hold time. */
  predicate HeldOut(probes: seq<Op>, r: nat) {
    exists k :: r <= k < |probes| && probes[k].Probe? && probes[r].Probe? && probes[k].now - probes[r].now >= PATH_HOLD
  }

  /** The path state after a run, told from the path observations alone. */
  ghost predicate PathAsObserved(c: Core, probes: seq<Op>) {
    var r := RunStart(probes);
    && r <= |probes| && (forall i :: 0 <= i < |probes| ==> probes[i].Probe?)
    && c.pathPending == (if r == |probes| then UNSET else probes[r].now)
    && (ActiveSlot(Path) in c.entries <==> HeldOut(probes, r))
    && (ActiveSlot(Path) in c.entries ==> c.entries[ActiveSlot(Path)] == Entry(Path, "probe_loss", probes[r].now, 0, true))
  }

  lemma {:induction false} IngestKeepsPath(c: Core, reports: seq<Report>)
    ensures var d := IngestAll(c, reports);
            && d.pathPending == c.pathPending && (ActiveSlot(Path) in d.entries <==> ActiveSlot(Path) in c.entries)
            && (ActiveSlot(Path) in c.entries ==> d.entries[ActiveSlot(Path)] == c.entries[ActiveSlot(Path)])
  {
    if reports != [] {
      IngestKeepsPath(c, reports[..|reports| - 1]);
    }
  }

  lemma PathStepAsObserved(c: Core, probes: seq<Op>, op: Op)
    requires op.Probe? && op.now != UNSET && PathAsObserved(c, probes)
    requires forall i :: 0 <= i < |probes| ==> probes[i].now != UNSET
    ensures PathAsObserved(Apply(c, op), probes + [op])
  {
    var all, n := probes + [op], |probes|;
    var r := RunStart(probes);
    assert all[..n] == probes && all[n] == op;
    assert forall i :: 0 <= i < n ==> all[i] == probes[i];
    if Lost(op) {
      assert RunStart(all) == r;
      if HeldOut(probes, r) {
        var k :| r <= k < n && probes[k].now - probes[r].now >= PATH_HOLD;
        assert all[k].now - all[r].now >= PATH_HOLD;
      }
      if HeldOut(all, r) && !HeldOut(probes, r) {
        var k :| r <= k <= n && all[k].now - all[r].now >= PATH_HOLD;
        assert k == n;
      }
      if op.now - all[r].now >= PATH_HOLD {
        assert all[n].now - all[r].now >= PATH_HOLD;
      }
    } else {
      assert RunStart(all) == n + 1;
    }
  }

  /** A path outage is open after a run exactly when some observation of the current unbroken run of
      dish-connected, all-lost observations came at least thirty seconds after that run's first one; it
      starts at that first observation. */
  lemma {:induction false} PathOpensExactly(persistent: bool, ops: seq<Op>)
    requires forall i :: 0 <= i < |ops| && ops[i].Probe? ==> ops[i].now != UNSET
    ensures PathAsObserved(Run(Empty(persistent), ops), Probes(ops))
    ensures forall i :: 0 <= i < |Probes(ops)| ==> Probes(ops)[i].Probe? && Probes(ops)[i].now != UNSET
  {
    if ops != [] {
      var front, op := ops[..|ops| - 1], ops[|ops| - 1];
      var before := Run(Empty(persistent), front);
      PathOpensExactly(persistent, front);
      if op.Probe? {
        PathStepAsObserved(before, Probes(front), op);
      } else {
        assert Probes(ops) == Probes(front);
        if op.Ingest? {
          IngestKeepsPath(Prune(before, op.now), op.reports);
        }
      }
    }
  }

  predicate Forward(probes: seq<Op>) {
    forall i, j :: 0 <= i < j < |probes| && probes[i].Probe? && probes[j].Probe? ==> probes[i].now <= probes[j].now
  }

  /** Ending the path outage that is open. */
  lemma ClosesAt(c: Core, op: Op, start: int)
    requires op.Probe? && !Lost(op) && start <= op.now
    requires ActiveSlot(Path) in c.entries && c.entries[ActiveSlot(Path)] == Entry(Path, "probe_loss", start, 0, true)
    ensures var d := Apply(c, op);
            && ActiveSlot(Path) !in d.entries
            && d.events == c.events + [Event(Ended, Entry(Path, "probe_loss", start, op.now - start, false))]
  {
  }

  lemma StaysClosed(c: Core, op: Op)
    requires op.Probe? && !Lost(op) && ActiveSlot(Path) !in c.entries
    ensures ActiveSlot(Path) !in Apply(c, op).entries && Apply(c, op).events == c.events
  {
  }

  /** What the first observation that is not a loss does: it ends an open path outage, with the time since the
      run's first loss as its length, and nothing else. */
  ghost predicate PathClosed(c: Core, probes: seq<Op>, op: Op)
    requires op.Probe?
  {
    var r, d := RunStart(probes), Apply(c, op);
    && ActiveSlot(Path) !in d.entries
    && d.events == if HeldOut(probes, r) then c.events + [PathEnd(probes[r].now, op.now)] else c.events
  }

  function PathEnd(start: int, now: int): Event { Event(Ended, Entry(Path, "probe_loss", start, now - start, false)) }

  lemma ClosesAsObserved(c: Core, probes: seq<Op>, op: Op)
    requires PathAsObserved(c, probes) && op.Probe? && !Lost(op) && Forward(probes + [op])
    ensures PathClosed(c, probes, op)
  {
    hide Apply, RunStart;
    var r := RunStart(probes);
    if HeldOut(probes, r) {
      var all := probes + [op];
      assert all[r] == probes[r] && all[|probes|] == op;
      ClosesAt(c, op, probes[r].now);
    } else {
      StaysClosed(c, op);
    }
  }

  /** When the first observation that is not a loss arrives, an open path outage ends with the time since
      the run's first loss as its length, exact under a clock that does not run backwards. */
  lemma PathClosesExactly(persistent: bool, ops: seq<Op>, op: Op)
    requires forall i :: 0 <= i < |ops| && ops[i].Probe? ==> ops[i].now != UNSET
    requires op.Probe? && !Lost(op) && Forward(Probes(ops) + [op])
    ensures PathClosed(Run(Empty(persistent), ops), Probes(ops), op)
  {
    PathOpensExactly(persistent, ops);
    hide Run, Probes, PathClosed, PathAsObserved, Forward;
    ClosesAsObserved(Run(Empty(persistent), ops), Probes(ops), op);
  }
}
