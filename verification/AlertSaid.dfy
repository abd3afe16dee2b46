/** What the engine sends, told from the inputs of its ticks: every notification of a tick with all its fields,
    when a failover is announced, and how long a resolved alert says it lasted. */
module AlertSaid {
  import opened Basics
  import Config
  import opened AlertEngine
  import opened AlertTheorems

  /** The engine handles every listed alert, the failover event before all others. */
  lemma CatalogComplete(name: Name)
    ensures name in CATALOG <==> !name.Unlisted? && !name.FailoverEvent?
  {
    assert CATALOG[0] == Config.OutageStarted && CATALOG[1] == Config.DishUnreachable && CATALOG[2] == Config.PathDegraded;
    assert CATALOG[3] == Config.ObstructionHigh && CATALOG[4] == Config.ThermalThrottle && CATALOG[5] == Config.ThermalShutdown;
    assert CATALOG[6] == Config.MotorsStuck && CATALOG[7] == Config.WaterDetected && CATALOG[8] == Config.MastNotVertical;
    assert CATALOG[9] == Config.SlowEthernet && CATALOG[10] == Config.FirmwarePending;
  }

  // ---------------------------------------------------------------- one alert, one tick

  predicate InForce(tick: Inputs, name: Name) { name in tick.rules && tick.rules[name].enabled }

  predicate KnownActive(tick: Inputs, name: Name) {
    InForce(tick, name) && tick.condition(name).known && tick.condition(name).active
  }

  /** A tick resolves an active alert when its rule is switched off, or when its condition is known to be clear
      and has been for the hold time. */
  predicate Resolves(st: AlertState, name: Name, tick: Inputs) {
    && st.active && name in tick.rules
    && (tick.rules[name].enabled ==>
          && tick.condition(name).known && !tick.condition(name).active
          && (tick.rules[name].clearHold <= 0
              || (st.clearSince != UNSET && tick.now - st.clearSince >= tick.rules[name].clearHold)))
  }

  /** The time since the alert's subject began or, when that is not known, since it fired; never negative. */
  function Lasted(started: int, firedAt: int, now: int): int {
    var since := if started != 0 then started else firedAt;
    if now > since then now - since else 0
  }

  /** What a tick sends about an alert: a firing with the condition's detail when it is first known to be active, a
      resolution with the detail it fired with and the time it lasted, or nothing. */
  function Said(st: AlertState, name: Name, tick: Inputs): seq<Notification> {
    if KnownActive(tick, name) && !st.active then
      [Notification(name, tick.rules[name].severity, Firing, tick.now / 1_000_000_000, tick.condition(name).detail, 0, tick.device)]
    else if Resolves(st, name, tick) then
      [Notification(name, tick.rules[name].severity, Resolved, tick.now / 1_000_000_000, st.detail,
                    Lasted(st.subjectStart, st.firedAt, tick.now), tick.device)]
    else []
  }

  lemma RaisedSays(c: Core, name: Name, tick: Inputs)
    requires KnownActive(tick, name)
    ensures RaisedStep(c, name, tick.rules[name], tick).sent == c.sent + Said(StateOf(c, name), name, tick)
  {
    hide Project;
  }

  lemma ClearedSays(c: Core, name: Name, tick: Inputs)
    requires InForce(tick, name) && tick.condition(name).known && !tick.condition(name).active
    ensures ClearedStep(c, name, tick.rules[name], tick).sent == c.sent + Said(StateOf(c, name), name, tick)
  {
    hide Project;
  }

  lemma RemovedSays(c: Core, name: Name, tick: Inputs)
    requires !InForce(tick, name)
    ensures AlertStep(c, name, tick).sent == c.sent + Said(StateOf(c, name), name, tick)
  {
    hide Project, RaisedStep, ClearedStep;
  }

  lemma StepSays(c: Core, name: Name, tick: Inputs)
    ensures AlertStep(c, name, tick).sent == c.sent + Said(StateOf(c, name), name, tick)
  {
    if !InForce(tick, name) {
      RemovedSays(c, name, tick);
    } else if tick.condition(name).known {
      hide RaisedStep, ClearedStep, DroppedStep, DisabledStep, Said;
      if tick.condition(name).active {
        RaisedSays(c, name, tick);
      } else {
        ClearedSays(c, name, tick);
      }
    }
  }

  lemma SaidAbout(sent: seq<Notification>, st: AlertState, name: Name, tick: Inputs)
    ensures About(sent + Said(st, name, tick), name) == About(sent, name) + Said(st, name, tick)
  {
    var said := Said(st, name, tick);
    if said == [] {
      assert sent + said == sent;
    } else {
      AboutOne(sent, said[0], name);
      assert said == [said[0]];
    }
  }

  lemma {:induction false} StepsSay(c: Core, names: seq<Name>, name: Name, tick: Inputs)
    requires name in names && forall i, j :: 0 <= i < j < |names| ==> names[i] != names[j]
    ensures About(AlertSteps(c, names, tick).sent, name) == About(c.sent, name) + Said(StateOf(c, name), name, tick)
    ensures StateOf(AlertSteps(c, names, tick), name) == Next(StateOf(c, name), name, tick)
  {
    hide AlertStep, Said, Next;
    var front, last := names[..|names| - 1], names[|names| - 1];
    var before := AlertSteps(c, front, tick);
    if last == name {
      StepsUntouched(c, front, name, tick);
      StepSays(before, name, tick);
      SaidAbout(before.sent, StateOf(before, name), name, tick);
      OwnNext(before, name, tick);
    } else {
      assert name in front;
      StepsSay(c, front, name, tick);
      OtherStepUntouched(before, last, name, tick);
    }
  }

  /** Everything a tick does about an alert, told from its state and the inputs alone: its next state, and the
      notifications sent about it with all their fields. */
  lemma TickSays(c: Core, name: Name, tick: Inputs)
    requires !name.Unlisted? && !name.FailoverEvent?
    ensures About(TickStep(c, tick).sent, name) == About(c.sent, name) + Said(StateOf(c, name), name, tick)
    ensures StateOf(TickStep(c, tick), name) == Next(StateOf(c, name), name, tick)
  {
    hide AlertSteps, FailoverStep, Said, Next;
    CatalogComplete(name);
    CatalogDistinct();
    FailoverUntouched(c, name, tick);
    StepsSay(FailoverStep(c, tick), CATALOG, name, tick);
  }

  // ---------------------------------------------------------------- how long an alert lasted

  /** Event j fired the alert, and it has been active ever since. */
  ghost predicate FiredAt(c: Core, events: seq<Event>, name: Name, j: nat) {
    && j < |events| && events[j].Ticked? && KnownActive(events[j].tick, name)
    && !Active(Run(c, events[..j]), name) && forall k :: j < k <= |events| ==> Active(Run(c, events[..k]), name)
  }

  /** An alert's state is that of the tick that fired it. */
  predicate FiredBy(st: AlertState, tick: Inputs, name: Name) {
    st.active && st.firedAt == tick.now && st.subjectStart == tick.condition(name).started && st.detail == tick.condition(name).detail
  }

  lemma FiredLonger(c: Core, events: seq<Event>, name: Name, j: nat)
    requires events != [] && FiredAt(c, events[..|events| - 1], name, j) && Active(Run(c, events), name)
    ensures FiredAt(c, events, name, j)
  {
    hide Run, KnownActive;
    var front := events[..|events| - 1];
    forall k | j < k <= |events| ensures Active(Run(c, events[..k]), name) {
      if k <= |front| {
        assert front[..k] == events[..k] && Active(Run(c, front[..k]), name);
      } else {
        assert events[..k] == events;
      }
    }
    assert front[..j] == events[..j];
  }

  lemma ActiveState(c: Core, name: Name)
    ensures Active(c, name) <==> StateOf(c, name).active
  {
  }

  /** An alert that an event makes active is fired by it; one that stays active stays as it was fired. */
  lemma EventFires(c: Core, e: Event, name: Name)
    requires !name.Unlisted? && !name.FailoverEvent? && (e.Restart? ==> InStep(c)) && Active(Apply(c, e), name)
    ensures if Active(c, name) then StateOf(Apply(c, e), name).(clearSince := UNSET) == StateOf(c, name).(clearSince := UNSET)
            else e.Ticked? && KnownActive(e.tick, name) && FiredBy(StateOf(Apply(c, e), name), e.tick, name)
  {
    hide TickStep, Restored, InStep, Said;
    ActiveState(c, name);
    ActiveState(Apply(c, e), name);
    if e.Ticked? {
      TickSays(c, name, e.tick);
    } else {
      RestartAlike(c);
      AlikeActive(Restored(c.store, c.sent), c, name);
    }
  }

  /** An active alert holds the start, the time and the detail of the tick that fired it, however often the engine was
      restarted from a store in step. */
  lemma {:induction false} FiredOnce(c: Core, events: seq<Event>, name: Name) returns (j: nat)
    requires !name.Unlisted? && !name.FailoverEvent? && RestartsRead(c, events)
    requires !Active(c, name) && Active(Run(c, events), name)
    ensures FiredAt(c, events, name, j) && FiredBy(StateOf(Run(c, events), name), events[j].tick, name)
  {
    var front, e := events[..|events| - 1], events[|events| - 1];
    RestartsReadFront(c, events);
    assert Run(c, events) == Apply(Run(c, front), e);
    hide InStep, Apply, Run, RestartsRead, StateOf, Active, KnownActive, FiredAt;
    EventFires(Run(c, front), e, name);
    if Active(Run(c, front), name) {
      j := FiredOnce(c, front, name);
      FiredLonger(c, events, name, j);
      assert events[j] == front[j] by {
        FiredBefore(c, front, name, j);
      }
    } else {
      j := |events| - 1;
      FiredNow(c, events, name);
    }
  }

  lemma FiredBefore(c: Core, events: seq<Event>, name: Name, j: nat)
    requires FiredAt(c, events, name, j)
    ensures j < |events| && events[j].Ticked?
  {
  }

  lemma FiredNow(c: Core, events: seq<Event>, name: Name)
    requires events != [] && events[|events| - 1].Ticked? && KnownActive(events[|events| - 1].tick, name)
    requires !Active(Run(c, events[..|events| - 1]), name) && Active(Run(c, events), name)
    ensures FiredAt(c, events, name, |events| - 1)
  {
    hide Run, Active, KnownActive;
    assert events[..|events|] == events;
  }

  /** The notification with which an alert that tick `fired` fired is resolved by a later tick. */
  function Resolution(name: Name, fired: Inputs, tick: Inputs): Notification
    requires name in tick.rules
  {
    Notification(name, tick.rules[name].severity, Resolved, tick.now / 1_000_000_000, fired.condition(name).detail,
                 Lasted(fired.condition(name).started, fired.now, tick.now), tick.device)
  }

  /** A resolution says how long it is since the subject of the alert began, as the tick that fired it had it, and
      carries that tick's detail, over every run in which restarts find the store in step. */
  lemma ResolvedSays(c: Core, events: seq<Event>, name: Name, tick: Inputs) returns (j: nat)
    requires !name.Unlisted? && !name.FailoverEvent? && RestartsRead(c, events) && !Active(c, name)
    requires Resolves(StateOf(Run(c, events), name), name, tick)
    ensures FiredAt(c, events, name, j)
    ensures About(TickStep(Run(c, events), tick).sent, name)
         == About(Run(c, events).sent, name) + [Resolution(name, events[j].tick, tick)]
    ensures !Active(TickStep(Run(c, events), tick), name)
  {
    hide TickStep, FiredAt, RestartsRead;
    ActiveState(Run(c, events), name);
    j := FiredOnce(c, events, name);
    TickSays(Run(c, events), name, tick);
    ActiveState(TickStep(Run(c, events), tick), name);
    hide StateOf, Run, Active;
  }

  // ---------------------------------------------------------------- failovers

  /** What a tick announces of the interfaces: one firing with the old and the new set when the rule is in force, they
      are known, a baseline is set and they differ from it; nothing otherwise. */
  function Announced(c: Core, tick: Inputs): seq<Notification> {
    var name := Config.FailoverEvent;
    if InForce(tick, name) && tick.interfaces.Some? && c.failoverReady && tick.interfaces.value != c.failoverSet then
      [Notification(name, tick.rules[name].severity, Firing, tick.now / 1_000_000_000,
                    Interfaces(c.failoverSet, tick.interfaces.value), 0, tick.device)]
    else []
  }

  /** The interfaces a tick observes. */
  function Observes(tick: Inputs): Option<string> {
    if InForce(tick, Config.FailoverEvent) then tick.interfaces else None
  }

  lemma FailoverSays(c: Core, tick: Inputs)
    ensures FailoverStep(c, tick).sent == c.sent + Announced(c, tick)
    ensures FailoverStep(c, tick).failoverReady == (c.failoverReady || Observes(tick).Some?)
    ensures FailoverStep(c, tick).failoverSet == if Observes(tick).Some? then Observes(tick).value else c.failoverSet
  {
    hide Project;
  }

  lemma AnnouncedAbout(c: Core, sent: seq<Notification>, tick: Inputs)
    ensures About(sent + Announced(c, tick), Config.FailoverEvent) == About(sent, Config.FailoverEvent) + Announced(c, tick)
  {
    var said := Announced(c, tick);
    if said == [] {
      assert sent + said == sent;
    } else {
      AboutOne(sent, said[0], Config.FailoverEvent);
      assert said == [said[0]];
    }
  }

  /** A tick announces a change of the interfaces exactly once, exactly when it observes one, and then compares with
      what it has observed. */
  lemma FailoverTick(c: Core, tick: Inputs)
    ensures About(TickStep(c, tick).sent, Config.FailoverEvent) == About(c.sent, Config.FailoverEvent) + Announced(c, tick)
    ensures TickStep(c, tick).failoverReady == (c.failoverReady || Observes(tick).Some?)
    ensures TickStep(c, tick).failoverSet == if Observes(tick).Some? then Observes(tick).value else c.failoverSet
  {
    hide AlertSteps, FailoverStep, Announced;
    CatalogComplete(Config.FailoverEvent);
    FailoverSays(c, tick);
    AnnouncedAbout(c, c.sent, tick);
    StepsUntouched(FailoverStep(c, tick), CATALOG, Config.FailoverEvent, tick);
    StepsFailover(FailoverStep(c, tick), CATALOG, tick);
  }

  function SaidAll(c: Core, names: seq<Name>, tick: Inputs): seq<Notification> {
    if names == [] then []
    else SaidAll(c, names[..|names| - 1], tick) + Said(StateOf(c, names[|names| - 1]), names[|names| - 1], tick)
  }

  lemma {:induction false} StepsSend(c: Core, names: seq<Name>, tick: Inputs)
    requires forall i, j :: 0 <= i < j < |names| ==> names[i] != names[j]
    ensures AlertSteps(c, names, tick).sent == c.sent + SaidAll(c, names, tick)
  {
    hide AlertStep, Said, SameAt;
    if names != [] {
      var front, last := names[..|names| - 1], names[|names| - 1];
      StepsSend(c, front, tick);
      StepsElsewhere(c, front, last, tick);
      StateSame(c, AlertSteps(c, front, tick), last);
      StepSays(AlertSteps(c, front, tick), last, tick);
    }
  }

  lemma StateSame(c: Core, d: Core, name: Name)
    requires SameAt(c, d, name)
    ensures StateOf(d, name) == StateOf(c, name)
  {
  }

  lemma FailoverStates(c: Core, tick: Inputs)
    ensures FailoverStep(c, tick).states == c.states
  {
  }

  lemma SaidSame(c: Core, d: Core, names: seq<Name>, tick: Inputs)
    requires c.states == d.states
    ensures SaidAll(c, names, tick) == SaidAll(d, names, tick)
  {
    hide Said;
  }

  /** Everything a tick sends, in this order: a failover first, and then about each alert of the catalog in turn. */
  lemma TickSends(c: Core, tick: Inputs)
    ensures TickStep(c, tick).sent == c.sent + Announced(c, tick) + SaidAll(c,
              [Config.OutageStarted, Config.DishUnreachable, Config.PathDegraded, Config.ObstructionHigh, Config.ThermalThrottle,
               Config.ThermalShutdown, Config.MotorsStuck, Config.WaterDetected, Config.MastNotVertical, Config.SlowEthernet,
               Config.FirmwarePending], tick)
  {
    hide AlertSteps, FailoverStep, Announced, SaidAll;
    CatalogDistinct();
    FailoverSays(c, tick);
    FailoverStates(c, tick);
    StepsSend(FailoverStep(c, tick), CATALOG, tick);
    SaidSame(c, FailoverStep(c, tick), CATALOG, tick);
    CatalogOrder();
  }

  lemma CatalogOrder()
    ensures CATALOG == [Config.OutageStarted, Config.DishUnreachable, Config.PathDegraded, Config.ObstructionHigh,
                        Config.ThermalThrottle, Config.ThermalShutdown, Config.MotorsStuck, Config.WaterDetected,
                        Config.MastNotVertical, Config.SlowEthernet, Config.FirmwarePending]
  {
  }

  /** The interfaces observed so far: the baseline to begin with, if there is one, and then those of the ticks. */
  function Observed(c: Core, events: seq<Event>): seq<string> {
    if events == [] then (if c.failoverReady then [c.failoverSet] else [])
    else Observed(c, events[..|events| - 1]) + Seen(events[|events| - 1])
  }

  /** The changes from one observation to the next. */
  function Changes(observed: seq<string>): seq<Detail> {
    if |observed| < 2 then []
    else
      var n := |observed| - 1;
      Changes(observed[..n]) + if observed[n] != observed[n - 1] then [Interfaces(observed[n - 1], observed[n])] else []
  }

  function Details(said: seq<Notification>): seq<Detail> {
    seq(|said|, i requires 0 <= i < |said| => said[i].detail)
  }

  /** The baseline is the last observation. */
  predicate Baseline(c: Core, observed: seq<string>) {
    (c.failoverReady <==> observed != []) && (observed != [] ==> c.failoverSet == observed[|observed| - 1])
  }

  lemma ChangesNext(c: Core, observed: seq<string>, tick: Inputs)
    requires Baseline(c, observed) && Observes(tick).Some?
    ensures Changes(observed + [Observes(tick).value]) == Changes(observed) + Details(Announced(c, tick))
  {
    var all, n := observed + [Observes(tick).value], |observed|;
    assert all[..n] == observed;
  }

  lemma DetailsConcat(a: seq<Notification>, b: seq<Notification>)
    ensures Details(a + b) == Details(a) + Details(b)
  {
  }

  /** What an event lets the engine observe. */
  function Seen(e: Event): seq<string> {
    if e.Ticked? && Observes(e.tick).Some? then [Observes(e.tick).value] else []
  }

  lemma EventAnnounces(c: Core, e: Event, observed: seq<string>) returns (said: seq<Notification>)
    requires Baseline(c, observed) && (e.Restart? ==> InStep(c))
    ensures Baseline(Apply(c, e), observed + Seen(e))
    ensures Changes(observed + Seen(e)) == Changes(observed) + Details(said)
    ensures About(Apply(c, e).sent, Config.FailoverEvent) == About(c.sent, Config.FailoverEvent) + said
  {
    hide TickStep, Restored, InStep, Announced;
    if e.Ticked? {
      said := Announced(c, e.tick);
      FailoverTick(c, e.tick);
      ObservedNext(c, observed, e.tick);
    } else {
      said := [];
      RestartAlike(c);
      AlikeActive(Restored(c.store, c.sent), c, Config.FailoverEvent);
      assert observed + [] == observed && Details(said) == [];
    }
  }

  lemma ObservedNext(c: Core, observed: seq<string>, tick: Inputs)
    requires Baseline(c, observed)
    ensures Changes(observed + Seen(Ticked(tick))) == Changes(observed) + Details(Announced(c, tick))
  {
    if Observes(tick).Some? {
      ChangesNext(c, observed, tick);
    } else {
      assert observed + [] == observed && Announced(c, tick) == [] && Details([]) == [];
    }
  }

  /** What was announced since c, up to r, is the changes from each observation to the next. */
  predicate AllAnnounced(c: Core, r: Core, observed: seq<string>, said: seq<Notification>) {
    && Baseline(r, observed) && Details(said) == Changes(observed)
    && About(r.sent, Config.FailoverEvent) == About(c.sent, Config.FailoverEvent) + said
  }

  lemma NoneAnnounced(c: Core)
    ensures AllAnnounced(c, c, Observed(c, []), [])
  {
  }

  lemma AnnouncedNext(c: Core, r: Core, observed: seq<string>, said: seq<Notification>, e: Event) returns (said': seq<Notification>)
    requires AllAnnounced(c, r, observed, said) && (e.Restart? ==> InStep(r))
    ensures AllAnnounced(c, Apply(r, e), observed + Seen(e), said')
  {
    hide Apply, Seen, InStep, Details, Changes, About, Baseline;
    var last := EventAnnounces(r, e, observed);
    DetailsConcat(said, last);
    said' := said + last;
  }

  /** Over every run in which restarts find the store in step: the failovers announced are exactly the changes from
      one observation of the interfaces to the next, in their order, with the old and the new set. */
  lemma {:induction false} FailoversAnnounced(c: Core, events: seq<Event>) returns (said: seq<Notification>)
    requires RestartsRead(c, events)
    ensures AllAnnounced(c, Run(c, events), Observed(c, events), said)
  {
    hide AllAnnounced;
    if events == [] {
      said := [];
      NoneAnnounced(c);
    } else {
      var front, e := events[..|events| - 1], events[|events| - 1];
      RestartsReadFront(c, events);
      said := FailoversAnnounced(c, front);
      hide Seen, Apply, InStep, RestartsRead;
      said := AnnouncedNext(c, Run(c, front), Observed(c, front), said, e);
    }
  }
}
