/** The outage timeline: dish reports, gRPC reachability and WAN path loss merged into outages that open
    and close once, with a persistence sink and published start and end events. */
module OutageTimeline {
  import opened Basics

  datatype Source = Dish | Unreachable | Path

  datatype Entry = Entry(source: Source, cause: string, start: int, duration: int, ongoing: bool)

  /** Where an entry is kept: one slot per open unreachable or path outage, one per identity otherwise. */
  datatype Slot = ActiveSlot(source: Source) | EntrySlot(source: Source, cause: string, start: int)

  datatype Seen = Seen(duration: int, end: int)

  datatype Kind = Started | Ended

  datatype Event = Event(kind: Kind, entry: Entry)

  datatype Report = Report(cause: string, start: int, duration: int)

  /** Times and durations are nanoseconds; zero is Go's zero time, "not set". */
  const UNSET := 0
  const HOUR := 3600 * SECOND
  const PATH_HOLD := 30 * SECOND

  /** The timeline with everything it has published and handed to persistence. `persistent` is false when
      it runs in memory only. */
  datatype Core = Core(
    persistent: bool, entries: map<Slot, Entry>, seen: map<Slot, Seen>, pathPending: int, expectedUntil: int,
    events: seq<Event>, saved: seq<Entry>)

  function SlotOf(e: Entry): Slot { EntrySlot(e.source, e.cause, e.start) }

  function Max0(n: int): int { if n < 0 then 0 else n }

  // ---------------------------------------------------------------- the steps

  function Publish(c: Core, kind: Kind, e: Entry): Core { c.(events := c.events + [Event(kind, e)]) }

  function Save(c: Core, e: Entry): Core { if c.persistent then c.(saved := c.saved + [e]) else c }

  /** A closed entry is remembered as seen, and kept in memory when there is nowhere else to keep it. */
  function Close(c: Core, e: Entry): Core {
    Save(c.(seen := c.seen[SlotOf(e) := Seen(e.duration, e.start + e.duration)],
            entries := if c.persistent then c.entries else c.entries[SlotOf(e) := e]), e)
  }

  function Prune(c: Core, now: int): Core {
    c.(seen := map k | k in c.seen && !(c.seen[k].end != UNSET && c.seen[k].end < now - HOUR) :: c.seen[k])
  }

  function IngestOne(c: Core, r: Report): Core {
    var slot := EntrySlot(Dish, r.cause, r.start);
    var incoming := Entry(Dish, r.cause, r.start, r.duration, r.duration <= 0);
    if r.start == UNSET then c
    else if slot in c.seen && (incoming.ongoing || incoming.duration <= c.seen[slot].duration) then c
    else if slot in c.entries && incoming.ongoing then c
    else if incoming.ongoing then Publish(c.(entries := c.entries[slot := incoming]), Started, incoming)
    else
      var closed := Close(c.(entries := c.entries - {slot}), incoming);
      if slot in c.entries && c.entries[slot].ongoing then Publish(closed, Ended, incoming) else closed
  }

  function IngestAll(c: Core, reports: seq<Report>): Core {
    if reports == [] then c else IngestOne(IngestAll(c, reports[..|reports| - 1]), reports[|reports| - 1])
  }

  function IngestStep(c: Core, now: int, reports: seq<Report>): Core { IngestAll(Prune(c, now), reports) }

  /** The end of an unreachable or path outage. */
  function EndActive(c: Core, source: Source, now: int): Core
    requires ActiveSlot(source) in c.entries
  {
    var current := c.entries[ActiveSlot(source)];
    var e := current.(duration := Max0(now - current.start), ongoing := false);
    Publish(Close(c.(entries := c.entries - {ActiveSlot(source)}), e), Ended, e)
  }

  function BeginActive(c: Core, e: Entry): Core {
    Publish(c.(entries := c.entries[ActiveSlot(e.source) := e]), Started, e)
  }

  function ReachStep(c: Core, now: int, reachable: bool, failureSince: int): Core {
    var open := ActiveSlot(Unreachable) in c.entries;
    if reachable then (if open then EndActive(c, Unreachable, now) else c)
    else if open then c
    else
      var cause := if now < c.expectedUntil then "expected_reboot" else "grpc_unreachable";
      BeginActive(c, Entry(Unreachable, cause, if failureSince == UNSET then now else failureSince, 0, true))
  }

  function PathStep(c: Core, now: int, lost: bool): Core {
    var open := ActiveSlot(Path) in c.entries;
    if !lost then
      var calm := c.(pathPending := UNSET);
      if open then EndActive(calm, Path, now) else calm
    else if open then c
    else if c.pathPending == UNSET then c.(pathPending := now)
    else if now - c.pathPending < PATH_HOLD then c
    else BeginActive(c, Entry(Path, "probe_loss", c.pathPending, 0, true))
  }

  function ExpectStep(c: Core, until: int): Core {
    if until > c.expectedUntil then c.(expectedUntil := until) else c
  }

  function Empty(persistent: bool): Core { Core(persistent, map[], map[], UNSET, UNSET, [], []) }

  // ---------------------------------------------------------------- the timeline

  class Timeline {
    const persistent: bool
    var entries: map<Slot, Entry>
    var seen: map<Slot, Seen>
    var pathPending: int
    var expectedUntil: int
    var events: seq<Event>
    var saved: seq<Entry>

    ghost function Now(): Core
      reads this
    {
      Core(persistent, entries, seen, pathPending, expectedUntil, events, saved)
    }

    constructor (persistent: bool)
      ensures Now() == Empty(persistent)
    {
      this.persistent := persistent;
      entries, seen, pathPending, expectedUntil, events, saved := map[], map[], UNSET, UNSET, [], [];
    }

    method ExpectUnreachableUntil(until: int)
      modifies this
      ensures Now() == ExpectStep(old(Now()), until)
    {
      if until > expectedUntil {
        expectedUntil := until;
      }
    }

    method PublishEvent(kind: Kind, e: Entry)
      modifies this`events
      ensures Now() == Publish(old(Now()), kind, e)
    {
      events := events + [Event(kind, e)];
    }

    method Persist(e: Entry)
      modifies this`saved
      ensures Now() == Save(old(Now()), e)
    {
      if persistent {
        saved := saved + [e];
      }
    }

    method PruneSeen(now: int)
      modifies this`seen
      ensures Now() == Prune(old(Now()), now)
    {
      var cutoff := now - HOUR;
      var rest := seen.Keys;
      while rest != {}
        invariant rest <= old(seen).Keys
        invariant forall k :: k in seen <==> k in old(seen) && (k in rest || !(old(seen)[k].end != UNSET && old(seen)[k].end < cutoff))
        invariant forall k :: k in seen ==> seen[k] == old(seen)[k]
        decreases rest
      {
        var key :| key in rest;
        if seen[key].end != UNSET && seen[key].end < cutoff {
          seen := seen - {key};
        }
        rest := rest - {key};
      }
    }

    method IngestDish(now: int, reports: seq<Report>)
      modifies this
      ensures Now() == IngestStep(old(Now()), now, reports)
    {
      PruneSeen(now);
      ghost var pruned := Now();
      for i := 0 to |reports|
        invariant Now() == IngestAll(pruned, reports[..i])
      {
        assert reports[..i + 1][..i] == reports[..i];
        IngestReport(reports[i]);
      }
      assert reports[..|reports|] == reports;
    }

    method IngestReport(report: Report)
      modifies this
      ensures Now() == IngestOne(old(Now()), report)
    {
      if report.start == UNSET {
        return;
      }
      var slot := EntrySlot(Dish, report.cause, report.start);
      var exists_ := slot in entries;
      var wasOngoing := exists_ && entries[slot].ongoing;
      var incoming := Entry(Dish, report.cause, report.start, report.duration, report.duration <= 0);
      if (slot in seen && (incoming.ongoing || incoming.duration <= seen[slot].duration)) || (exists_ && incoming.ongoing) {
        return;
      }
      if incoming.ongoing {
        entries := entries[slot := incoming];
      } else {
        entries := entries - {slot};
        seen := seen[slot := Seen(incoming.duration, incoming.start + incoming.duration)];
        if !persistent {
          entries := entries[slot := incoming];
        }
      }
      if incoming.ongoing && !exists_ {
        PublishEvent(Started, incoming);
      } else if !incoming.ongoing {
        Persist(incoming);
        if wasOngoing {
          PublishEvent(Ended, incoming);
        }
      }
    }

    method Finish(source: Source, now: int)
      requires ActiveSlot(source) in entries
      modifies this
      ensures Now() == EndActive(old(Now()), source, now)
    {
      var current := entries[ActiveSlot(source)];
      entries := entries - {ActiveSlot(source)};
      current := current.(duration := Max0(now - current.start), ongoing := false);
      var closed := SlotOf(current);
      seen := seen[closed := Seen(current.duration, current.start + current.duration)];
      if !persistent {
        entries := entries[closed := current];
      }
      Persist(current);
      PublishEvent(Ended, current);
    }

    method ObserveDish(now: int, reachable: bool, failureSince: int)
      modifies this
      ensures Now() == ReachStep(old(Now()), now, reachable, failureSince)
    {
      var open := ActiveSlot(Unreachable) in entries;
      if !reachable {
        if open {
          return;
        }
        var since := failureSince;
        if since == UNSET {
          since := now;
        }
        var cause := "grpc_unreachable";
        if now < expectedUntil {
          cause := "expected_reboot";
        }
        var entry := Entry(Unreachable, cause, since, 0, true);
        entries := entries[ActiveSlot(Unreachable) := entry];
        PublishEvent(Started, entry);
        return;
      }
      if !open {
        return;
      }
      Finish(Unreachable, now);
    }

    method ObservePath(now: int, dishConnected: bool, allProbesLost: bool)
      modifies this
      ensures Now() == PathStep(old(Now()), now, dishConnected && allProbesLost)
    {
      var open := ActiveSlot(Path) in entries;
      if dishConnected && allProbesLost {
        if open {
          return;
        }
        if pathPending == UNSET {
          pathPending := now;
          return;
        }
        if now - pathPending < PATH_HOLD {
          return;
        }
        var entry := Entry(Path, "probe_loss", pathPending, 0, true);
        entries := entries[ActiveSlot(Path) := entry];
        PublishEvent(Started, entry);
        return;
      }
      pathPending := UNSET;
      if !open {
        return;
      }
      Finish(Path, now);
    }
  }
}
