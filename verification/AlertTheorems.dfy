/** Properties of the alert engine over whole runs: the store always holds what a restart needs, a
    restart is invisible in what is sent, notifications alternate, and the clearing delay is kept. */
module AlertTheorems {
  import opened Basics
  import opened AlertEngine

  // ---------------------------------------------------------------- the store

  /** What a restart would read. */
  function Stored(c: Core): Saved { if c.store.Some? then c.store.value else NOTHING_SAVED }

  /** The store holds the active states and the failover baseline. */
  predicate InStep(c: Core) { Stored(c) == Project(c) }

  /** A clearing time is only ever set on an active alert. */
  predicate ClearingIsActive(c: Core) {
    forall n :: n in c.states && c.states[n].clearSince != UNSET ==> c.states[n].active
  }

  predicate Sound(c: Core) { InStep(c) && ClearingIsActive(c) }

  lemma ProjectPut(c: Core, name: Name, st: AlertState)
    ensures Project(Put(c, name, st)).states ==
            if st.active then Project(c).states[name := st] else Project(c).states - {name}
  {
  }

  lemma ProjectForget(c: Core, name: Name)
    ensures Project(Forget(c, name)).states == Project(c).states - {name}
  {
  }

  /** Without a projection change a step may skip saving. */
  lemma IdleUnseen(c: Core, name: Name)
    ensures !Active(c, name) ==> Project(Put(c, name, StateOf(c, name))) == Project(c)
    ensures Put(c, name, StateOf(c, name)).states.Keys == c.states.Keys + {name}
    ensures name in c.states ==> Put(c, name, StateOf(c, name)) == c
  {
    ProjectPut(c, name, StateOf(c, name));
    if name in c.states {
      assert c.states[name := c.states[name]] == c.states;
    } else {
      assert Project(c).states - {name} == Project(c).states;
    }
  }

  /** After a successful save nothing more is needed. */
  lemma PersistSound(c: Core)
    requires ClearingIsActive(c)
    ensures Sound(Persist(c, true))
  {
  }

  lemma KeptSound(c: Core, name: Name)
    requires Sound(c) && !Active(c, name)
    ensures Sound(Put(c, name, StateOf(c, name)))
  {
    IdleUnseen(c, name);
    assert Put(c, name, StateOf(c, name)).store == c.store;
  }

  lemma AlertKeptSound(c: Core, name: Name)
    requires Sound(c)
    ensures Sound(Put(c, name, StateOf(c, name)))
  {
    if Active(c, name) {
      IdleUnseen(c, name);
    } else {
      KeptSound(c, name);
    }
  }

  lemma RaisedSound(c: Core, name: Name, rule: Rule, tick: Inputs)
    requires Sound(c) && tick.saves(name)
    ensures Sound(RaisedStep(c, name, rule, tick))
  {
    hide Project;
    hide Message;
    hide InStep;
    var st := StateOf(c, name);
    var kept := Put(c, name, st);
    AlertKeptSound(c, name);
    var calm := if st.clearSince != UNSET then Persist(Put(kept, name, st.(clearSince := UNSET)), true) else kept;
    PersistSound(Put(kept, name, st.(clearSince := UNSET)));
    if !st.active {
      var fired := AlertState(true, tick.now, tick.condition(name).started, UNSET, tick.condition(name).detail);
      PersistSound(Emit(Put(calm, name, fired), Message(name, rule.severity, Firing, fired, tick)));
    }
  }

  lemma ClearedSound(c: Core, name: Name, rule: Rule, tick: Inputs)
    requires Sound(c) && tick.saves(name)
    ensures Sound(ClearedStep(c, name, rule, tick))
  {
    hide Project;
    hide Message;
    hide InStep;
    var st := StateOf(c, name);
    var kept := Put(c, name, st);
    AlertKeptSound(c, name);
    if st.active {
      PersistSound(Put(kept, name, st.(clearSince := tick.now)));
      PersistSound(Put(Emit(kept, Message(name, rule.severity, Resolved, st, tick)), name, IDLE));
    }
  }

  lemma AlertStepSound(c: Core, name: Name, tick: Inputs)
    requires Sound(c) && tick.saves(name)
    ensures Sound(AlertStep(c, name, tick))
  {
    hide Project;
    hide Message;
    hide InStep;
    hide RaisedStep;
    hide ClearedStep;
    if name !in tick.rules {
      PersistSound(Forget(c, name));
    } else if !tick.rules[name].enabled {
      PersistSound(Forget(c, name));
      PersistSound(Forget(Emit(c, Message(name, tick.rules[name].severity, Resolved, StateOf(c, name), tick)), name));
    } else {
      RaisedSound(c, name, tick.rules[name], tick);
      ClearedSound(c, name, tick.rules[name], tick);
    }
  }

  /** Every write to the store that the tick makes succeeds. */
  ghost predicate AllSaved(tick: Inputs) { forall n :: tick.saves(n) }

  lemma {:induction false} AlertStepsSound(c: Core, names: seq<Name>, tick: Inputs)
    requires Sound(c) && AllSaved(tick)
    ensures Sound(AlertSteps(c, names, tick))
  {
    if names != [] {
      AlertStepsSound(c, names[..|names| - 1], tick);
      AlertStepSound(AlertSteps(c, names[..|names| - 1], tick), names[|names| - 1], tick);
    }
  }

  lemma FailoverStepSound(c: Core, tick: Inputs)
    requires Sound(c) && AllSaved(tick)
    ensures Sound(FailoverStep(c, tick))
  {
  }

  /** A tick whose saves succeed keeps the store in step with the engine. */
  lemma TickSound(c: Core, tick: Inputs)
    requires Sound(c) && AllSaved(tick)
    ensures Sound(TickStep(c, tick))
  {
    FailoverStepSound(c, tick);
    AlertStepsSound(FailoverStep(c, tick), CATALOG, tick);
  }

  // ---------------------------------------------------------------- restarts

  datatype Event = Ticked(tick: Inputs) | Restart

  function Apply(c: Core, e: Event): Core {
    match e
    case Ticked(tick) => TickStep(c, tick)
    case Restart => Restored(c.store, c.sent)
  }

  function Run(c: Core, events: seq<Event>): Core {
    if events == [] then c else Apply(Run(c, events[..|events| - 1]), events[|events| - 1])
  }

  function WithoutRestarts(events: seq<Event>): seq<Event> {
    if events == [] then []
    else
      var before := WithoutRestarts(events[..|events| - 1]);
      if events[|events| - 1].Restart? then before else before + [events[|events| - 1]]
  }

  ghost predicate AllSave(events: seq<Event>) {
    forall i :: 0 <= i < |events| && events[i].Ticked? ==> AllSaved(events[i].tick)
  }

  /** Two engines that no later tick can tell apart: the same active states, baseline and messages. */
  predicate Alike(c: Core, d: Core) { Project(c) == Project(d) && c.sent == d.sent }

  lemma AlikeActive(c: Core, d: Core, name: Name)
    requires Alike(c, d)
    ensures Active(c, name) <==> Active(d, name)
    ensures Active(c, name) ==> c.states[name] == d.states[name]
    ensures c.failoverSet == d.failoverSet && c.failoverReady == d.failoverReady
  {
    assert Active(c, name) <==> name in Project(c).states;
    assert Active(d, name) <==> name in Project(d).states;
    if Active(c, name) {
      assert Project(c).states[name] == Project(d).states[name];
    }
  }

  lemma AlikePut(c: Core, d: Core, name: Name, st: AlertState)
    requires Alike(c, d)
    ensures Alike(Put(c, name, st), Put(d, name, st))
  {
    ProjectPut(c, name, st);
    ProjectPut(d, name, st);
  }

  lemma AlikePersist(c: Core, d: Core, saves: bool)
    requires Alike(c, d)
    ensures Alike(Persist(c, saves), Persist(d, saves))
    ensures Alike(c, Persist(d, saves)) && Alike(Persist(c, saves), d)
  {
  }

  lemma AlikeEmit(c: Core, d: Core, m: Notification)
    requires Alike(c, d)
    ensures Alike(Emit(c, m), Emit(d, m))
  {
  }

  lemma AlikeForget(c: Core, d: Core, name: Name)
    requires Alike(c, d)
    ensures Alike(Forget(c, name), Forget(d, name))
    ensures !Active(c, name) ==> Alike(Forget(c, name), d) && Alike(c, Forget(d, name))
  {
    ProjectForget(c, name);
    ProjectForget(d, name);
    AlikeActive(c, d, name);
    if !Active(c, name) {
      assert Project(c).states - {name} == Project(c).states;
    }
  }

  /** Creating an idle state, or not having one, makes no difference. */
  lemma AlikeKept(c: Core, d: Core, name: Name)
    requires Alike(c, d) && ClearingIsActive(c) && ClearingIsActive(d)
    ensures Alike(Put(c, name, StateOf(c, name)), Put(d, name, StateOf(d, name)))
    ensures StateOf(c, name).active == StateOf(d, name).active
    ensures StateOf(c, name).clearSince == StateOf(d, name).clearSince
    ensures StateOf(c, name).active ==> StateOf(c, name) == StateOf(d, name)
  {
    AlikeActive(c, d, name);
    ProjectPut(c, name, StateOf(c, name));
    ProjectPut(d, name, StateOf(d, name));
  }

  lemma RaisedAlike(c: Core, d: Core, name: Name, rule: Rule, tick: Inputs)
    requires Alike(c, d) && ClearingIsActive(c) && ClearingIsActive(d)
    ensures Alike(RaisedStep(c, name, rule, tick), RaisedStep(d, name, rule, tick))
  {
    hide Project;
    hide Message;
    hide Alike;
    hide Put;
    hide Emit;
    hide Persist;
    AlikeKept(c, d, name);
    var kc, kd := Put(c, name, StateOf(c, name)), Put(d, name, StateOf(d, name));
    var st := StateOf(c, name);
    if st.clearSince != UNSET {
      AlikePut(kc, kd, name, st.(clearSince := UNSET));
      AlikePersist(Put(kc, name, st.(clearSince := UNSET)), Put(kd, name, st.(clearSince := UNSET)), tick.saves(name));
    }
    if !st.active {
      var fired := AlertState(true, tick.now, tick.condition(name).started, UNSET, tick.condition(name).detail);
      var m := Message(name, rule.severity, Firing, fired, tick);
      AlikePut(kc, kd, name, fired);
      AlikeEmit(Put(kc, name, fired), Put(kd, name, fired), m);
      AlikePersist(Emit(Put(kc, name, fired), m), Emit(Put(kd, name, fired), m), tick.saves(name));
    }
  }

  lemma ClearedAlike(c: Core, d: Core, name: Name, rule: Rule, tick: Inputs)
    requires Alike(c, d) && ClearingIsActive(c) && ClearingIsActive(d)
    ensures Alike(ClearedStep(c, name, rule, tick), ClearedStep(d, name, rule, tick))
  {
    hide Project;
    hide Message;
    hide Alike;
    hide Put;
    hide Emit;
    hide Persist;
    AlikeKept(c, d, name);
    var kc, kd := Put(c, name, StateOf(c, name)), Put(d, name, StateOf(d, name));
    var st := StateOf(c, name);
    if st.active {
      var waiting := st.(clearSince := tick.now);
      AlikePut(kc, kd, name, waiting);
      AlikePersist(Put(kc, name, waiting), Put(kd, name, waiting), tick.saves(name));
      var m := Message(name, rule.severity, Resolved, st, tick);
      AlikeEmit(kc, kd, m);
      AlikePut(Emit(kc, m), Emit(kd, m), name, IDLE);
      AlikePersist(Put(Emit(kc, m), name, IDLE), Put(Emit(kd, m), name, IDLE), tick.saves(name));
    }
  }

  lemma AlertStepAlike(c: Core, d: Core, name: Name, tick: Inputs)
    requires Alike(c, d) && ClearingIsActive(c) && ClearingIsActive(d)
    ensures Alike(AlertStep(c, name, tick), AlertStep(d, name, tick))
  {
    hide Project;
    hide Message;
    hide Alike;
    hide Emit;
    hide Persist;
    hide Forget;
    AlikeActive(c, d, name);
    if name !in tick.rules {
      AlikeForget(c, d, name);
      AlikePersist(Forget(c, name), Forget(d, name), tick.saves(name));
      if name !in c.states {
        AlikePersist(c, Forget(d, name), tick.saves(name));
      } else if name !in d.states {
        AlikePersist(Forget(c, name), d, tick.saves(name));
      }
    } else if !tick.rules[name].enabled {
      if Active(c, name) {
        AlikeEmit(c, d, Message(name, tick.rules[name].severity, Resolved, c.states[name], tick));
      }
      var m := Message(name, tick.rules[name].severity, Resolved, StateOf(c, name), tick);
      var sc, sd := if Active(c, name) then Emit(c, m) else c, if Active(c, name) then Emit(d, m) else d;
      AlikeForget(sc, sd, name);
      AlikePersist(Forget(sc, name), Forget(sd, name), tick.saves(name));
    } else if tick.condition(name).known {
      RaisedAlike(c, d, name, tick.rules[name], tick);
      ClearedAlike(c, d, name, tick.rules[name], tick);
    }
  }

  lemma FailoverAlike(c: Core, d: Core, tick: Inputs)
    requires Alike(c, d)
    ensures Alike(FailoverStep(c, tick), FailoverStep(d, tick))
  {
    AlikeActive(c, d, CATALOG[0]);
  }

  lemma {:induction false} AlertStepsAlike(c: Core, d: Core, names: seq<Name>, tick: Inputs)
    requires Alike(c, d) && ClearingIsActive(c) && ClearingIsActive(d)
    ensures Alike(AlertSteps(c, names, tick), AlertSteps(d, names, tick))
  {
    hide Alike, ClearingIsActive, AlertStep;
    if names != [] {
      var front := names[..|names| - 1];
      AlertStepsAlike(c, d, front, tick);
      StepsClearingActive(c, front, tick);
      StepsClearingActive(d, front, tick);
      AlertStepAlike(AlertSteps(c, front, tick), AlertSteps(d, front, tick), names[|names| - 1], tick);
    }
  }

  lemma TickAlike(c: Core, d: Core, tick: Inputs)
    requires Alike(c, d) && ClearingIsActive(c) && ClearingIsActive(d)
    ensures Alike(TickStep(c, tick), TickStep(d, tick))
  {
    hide AlertSteps, Alike;
    FailoverAlike(c, d, tick);
    assert FailoverStep(c, tick).states == c.states && FailoverStep(d, tick).states == d.states;
    hide FailoverStep;
    AlertStepsAlike(FailoverStep(c, tick), FailoverStep(d, tick), CATALOG, tick);
  }

  /** Restoring from a store that is in step gives an engine like the one that stopped, and a sound one. */
  lemma RestartAlike(c: Core)
    requires InStep(c)
    ensures Alike(Restored(c.store, c.sent), c) && Sound(Restored(c.store, c.sent))
  {
    var r, saved := Restored(c.store, c.sent), Project(c);
    assert r.states == saved.states;
    assert Project(r).states == saved.states;
  }

  /** A fresh engine over a store that holds only active states is sound. */
  lemma FreshSound(store: Option<Saved>)
    requires store.Some? ==> forall n :: n in store.value.states ==> store.value.states[n].active
    ensures Sound(Restored(store, []))
  {
    var r := Restored(store, []);
    assert Project(r).states == r.states;
  }

  lemma {:induction false} RunSound(c: Core, events: seq<Event>)
    requires Sound(c) && AllSave(events)
    ensures Sound(Run(c, events))
  {
    if events != [] {
      var front, e := events[..|events| - 1], events[|events| - 1];
      RunSound(c, front);
      if e.Ticked? {
        TickSound(Run(c, front), e.tick);
      } else {
        RestartAlike(Run(c, front));
      }
    }
  }

  /** Wherever the run restarts, the store is in step. */
  ghost predicate RestartsRead(c: Core, events: seq<Event>) {
    forall j :: 0 <= j < |events| && events[j].Restart? ==> InStep(Run(c, events[..j]))
  }

  lemma RestartsReadFront(c: Core, events: seq<Event>)
    requires events != [] && RestartsRead(c, events)
    ensures RestartsRead(c, events[..|events| - 1])
    ensures events[|events| - 1].Restart? ==> InStep(Run(c, events[..|events| - 1]))
  {
    hide InStep, Run;
    var front := events[..|events| - 1];
    forall j | 0 <= j < |front| && front[j].Restart? ensures InStep(Run(c, front[..j])) {
      assert events[j].Restart? && front[..j] == events[..j];
    }
  }

  /** In particular when every write succeeds. */
  lemma SavedRunsRead(c: Core, events: seq<Event>)
    requires Sound(c) && AllSave(events)
    ensures RestartsRead(c, events)
  {
    forall j | 0 <= j < |events| && events[j].Restart? ensures InStep(Run(c, events[..j])) {
      assert AllSave(events[..j]);
      RunSound(c, events[..j]);
    }
  }

  lemma {:induction false} RunAlike(c: Core, events: seq<Event>)
    requires ClearingIsActive(c) && RestartsRead(c, events)
    ensures Alike(Run(c, events), Run(c, WithoutRestarts(events)))
    ensures ClearingIsActive(Run(c, events)) && ClearingIsActive(Run(c, WithoutRestarts(events)))
  {
    hide Alike, TickStep, Restored, RestartsRead;
    if events == [] {
      AlikeItself(c);
    } else {
      var front, e := events[..|events| - 1], events[|events| - 1];
      var without := WithoutRestarts(front);
      RestartsReadFront(c, events);
      RunAlike(c, front);
      if e.Ticked? {
        TickAlike(Run(c, front), Run(c, without), e.tick);
        TickClearing(Run(c, front), e.tick);
        TickClearing(Run(c, without), e.tick);
        assert (without + [e])[..|without|] == without;
      } else {
        RestartAlike(Run(c, front));
        AlikeTrans(Restored(Run(c, front).store, Run(c, front).sent), Run(c, front), Run(c, without));
      }
    }
  }

  lemma AlikeTrans(a: Core, b: Core, c: Core)
    requires Alike(a, b) && Alike(b, c)
    ensures Alike(a, c)
  {
  }

  lemma AlikeItself(c: Core)
    ensures Alike(c, c)
  {
  }

  /** Restart transparency: as long as a restart finds the store in step, restarting the engine between any
      ticks changes nothing that is ever sent. */
  lemma RestartsInvisible(c: Core, events: seq<Event>)
    requires ClearingIsActive(c) && RestartsRead(c, events)
    ensures Run(c, events).sent == Run(c, WithoutRestarts(events)).sent
  {
    hide Run, WithoutRestarts, RestartsRead;
    RunAlike(c, events);
  }

  // ---------------------------------------------------------------- failing saves

  /** Whether handling an alert writes to the store. */
  predicate Saving(c: Core, name: Name, tick: Inputs) {
    var st := StateOf(c, name);
    if name !in tick.rules then name in c.states
    else if !tick.rules[name].enabled then true
    else if !tick.condition(name).known then false
    else if tick.condition(name).active then st.clearSince != UNSET || !st.active
    else
      var hold := tick.rules[name].clearHold;
      st.active && (hold <= 0 || st.clearSince == UNSET || tick.now - st.clearSince >= hold)
  }

  /** Handling an alert leaves the store alone, or holding what it should; when nothing is written nothing has
      to be. */
  lemma StepStore(c: Core, name: Name, tick: Inputs)
    ensures var d := AlertStep(c, name, tick);
            && (Saving(c, name, tick) && tick.saves(name) ==> d.store == Some(Project(d)))
            && (!(Saving(c, name, tick) && tick.saves(name)) ==> d.store == c.store)
            && (!Saving(c, name, tick) ==> Project(d) == Project(c))
  {
    hide Project;
    hide Message;
    hide RaisedStep;
    hide ClearedStep;
    if name !in tick.rules {
      PersistStore(Forget(c, name), tick.saves(name));
    } else if !tick.rules[name].enabled {
      var m := Message(name, tick.rules[name].severity, Resolved, StateOf(c, name), tick);
      PersistStore(Forget(c, name), tick.saves(name));
      PersistStore(Forget(Emit(c, m), name), tick.saves(name));
    } else {
      RaisedStore(c, name, tick.rules[name], tick);
      ClearedStore(c, name, tick.rules[name], tick);
    }
  }

  lemma PersistStore(c: Core, saves: bool)
    ensures Project(Persist(c, saves)) == Project(c)
    ensures Persist(c, saves).store == if saves then Some(Project(c)) else c.store
  {
  }

  lemma RaisedStore(c: Core, name: Name, rule: Rule, tick: Inputs)
    ensures var d, st := RaisedStep(c, name, rule, tick), StateOf(c, name);
            if st.clearSince != UNSET || !st.active then d.store == if tick.saves(name) then Some(Project(d)) else c.store
            else d.store == c.store && Project(d) == Project(c)
  {
    hide Project;
    hide Message;
    var st := StateOf(c, name);
    IdleUnseen(c, name);
    var quiet := Put(Put(c, name, st), name, st.(clearSince := UNSET));
    PersistStore(quiet, tick.saves(name));
    if !st.active {
      var calm := if st.clearSince != UNSET then Persist(quiet, tick.saves(name)) else Put(c, name, st);
      var fired := AlertState(true, tick.now, tick.condition(name).started, UNSET, tick.condition(name).detail);
      PersistStore(Emit(Put(calm, name, fired), Message(name, rule.severity, Firing, fired, tick)), tick.saves(name));
    }
  }

  lemma ClearedStore(c: Core, name: Name, rule: Rule, tick: Inputs)
    ensures var d, st := ClearedStep(c, name, rule, tick), StateOf(c, name);
            if st.active && (rule.clearHold <= 0 || st.clearSince == UNSET || tick.now - st.clearSince >= rule.clearHold)
            then d.store == if tick.saves(name) then Some(Project(d)) else c.store
            else d.store == c.store && Project(d) == Project(c)
  {
    hide Project;
    hide Message;
    var st := StateOf(c, name);
    IdleUnseen(c, name);
    var kept := Put(c, name, st);
    PersistStore(Put(kept, name, st.(clearSince := tick.now)), tick.saves(name));
    PersistStore(Put(Emit(kept, Message(name, rule.severity, Resolved, st, tick)), name, IDLE), tick.saves(name));
  }

  // ---------------------------------------------------------------- one alert's own state

  /** The state of an alert after its own step, told from its state before. */
  function Next(st: AlertState, name: Name, tick: Inputs): AlertState {
    if name !in tick.rules || !tick.rules[name].enabled then IDLE
    else if !tick.condition(name).known then st
    else if tick.condition(name).active then
      if st.active then st.(clearSince := UNSET)
      else AlertState(true, tick.now, tick.condition(name).started, UNSET, tick.condition(name).detail)
    else if !st.active then st
    else
      var hold := tick.rules[name].clearHold;
      if hold > 0 && st.clearSince == UNSET then st.(clearSince := tick.now)
      else if hold > 0 && tick.now - st.clearSince < hold then st
      else IDLE
  }

  lemma StatePut(c: Core, name: Name, st: AlertState)
    ensures StateOf(Put(c, name, st), name) == st && StateOf(Forget(c, name), name) == IDLE
  {
  }

  lemma StateKept(c: Core, m: Notification, saves: bool, name: Name)
    ensures StateOf(Emit(c, m), name) == StateOf(c, name) == StateOf(Persist(c, saves), name)
  {
    hide Project;
  }

  lemma RaisedNext(c: Core, name: Name, tick: Inputs)
    requires name in tick.rules && tick.rules[name].enabled && tick.condition(name).known && tick.condition(name).active
    ensures StateOf(RaisedStep(c, name, tick.rules[name], tick), name) == Next(StateOf(c, name), name, tick)
  {
    hide Message, Put, Emit, Persist;
    var st := StateOf(c, name);
    var kept := Put(c, name, st);
    var quiet := Put(kept, name, st.(clearSince := UNSET));
    var fired := AlertState(true, tick.now, tick.condition(name).started, UNSET, tick.condition(name).detail);
    var m := Message(name, tick.rules[name].severity, Firing, fired, tick);
    StatePut(c, name, st);
    StatePut(kept, name, st.(clearSince := UNSET));
    StateKept(quiet, m, tick.saves(name), name);
    var calm := if st.clearSince != UNSET then Persist(quiet, tick.saves(name)) else kept;
    StatePut(calm, name, fired);
    StateKept(Put(calm, name, fired), m, tick.saves(name), name);
    StateKept(Emit(Put(calm, name, fired), m), m, tick.saves(name), name);
  }

  lemma ClearedNext(c: Core, name: Name, tick: Inputs)
    requires name in tick.rules && tick.rules[name].enabled && tick.condition(name).known && !tick.condition(name).active
    ensures StateOf(ClearedStep(c, name, tick.rules[name], tick), name) == Next(StateOf(c, name), name, tick)
  {
    hide Message, Put, Emit, Persist;
    var st := StateOf(c, name);
    var kept := Put(c, name, st);
    var waiting := Put(kept, name, st.(clearSince := tick.now));
    var m := Message(name, tick.rules[name].severity, Resolved, st, tick);
    StatePut(c, name, st);
    StatePut(kept, name, st.(clearSince := tick.now));
    StateKept(waiting, m, tick.saves(name), name);
    StatePut(Emit(kept, m), name, IDLE);
    StateKept(Put(Emit(kept, m), name, IDLE), m, tick.saves(name), name);
  }

  lemma RemovedNext(c: Core, name: Name, tick: Inputs)
    ensures StateOf(DroppedStep(c, name, tick), name) == IDLE
    ensures name in tick.rules ==> StateOf(DisabledStep(c, name, tick.rules[name], tick), name) == IDLE
  {
    hide Message, Put, Emit, Persist, Forget;
    var m := Message(name, if name in tick.rules then tick.rules[name].severity else Info, Resolved, StateOf(c, name), tick);
    StatePut(c, name, IDLE);
    StatePut(Emit(c, m), name, IDLE);
    StateKept(Forget(c, name), m, tick.saves(name), name);
    StateKept(Forget(Emit(c, m), name), m, tick.saves(name), name);
  }

  lemma OwnNext(c: Core, name: Name, tick: Inputs)
    ensures StateOf(AlertStep(c, name, tick), name) == Next(StateOf(c, name), name, tick)
  {
    hide RaisedStep, ClearedStep, DroppedStep, DisabledStep, StateOf;
    RemovedNext(c, name, tick);
    if name in tick.rules && tick.rules[name].enabled && tick.condition(name).known {
      if tick.condition(name).active {
        RaisedNext(c, name, tick);
      } else {
        ClearedNext(c, name, tick);
      }
    }
  }

  lemma StepClearingActive(c: Core, name: Name, tick: Inputs)
    requires ClearingIsActive(c)
    ensures ClearingIsActive(AlertStep(c, name, tick))
  {
    OwnNext(c, name, tick);
    var d := AlertStep(c, name, tick);
    hide AlertStep;
    forall n | n in d.states && d.states[n].clearSince != UNSET ensures d.states[n].active {
      if n != name {
        OtherStepKeeps(c, name, n, tick);
      }
    }
  }

  lemma {:induction false} StepsClearingActive(c: Core, names: seq<Name>, tick: Inputs)
    requires ClearingIsActive(c)
    ensures ClearingIsActive(AlertSteps(c, names, tick))
  {
    hide AlertStep, ClearingIsActive;
    if names != [] {
      StepsClearingActive(c, names[..|names| - 1], tick);
      StepClearingActive(AlertSteps(c, names[..|names| - 1], tick), names[|names| - 1], tick);
    }
  }

  /** Whether or not writes succeed, only active alerts are ever clearing. */
  lemma TickClearing(c: Core, tick: Inputs)
    requires ClearingIsActive(c)
    ensures ClearingIsActive(TickStep(c, tick))
  {
    hide AlertSteps;
    assert FailoverStep(c, tick).states == c.states;
    StepsClearingActive(FailoverStep(c, tick), CATALOG, tick);
  }

  // ---------------------------------------------------------------- when failing writes matter

  /** What the store should hold about an alert. */
  function HeldOf(st: AlertState): Option<AlertState> { if st.active then Some(st) else None }

  function SavedAt(s: Saved, name: Name): Option<AlertState> { if name in s.states then Some(s.states[name]) else None }

  /** Whether handling an alert changes what the store should hold: the guard of the branch it takes, read before
      the tick. */
  predicate Alters(c: Core, name: Name, tick: Inputs) { AltersState(StateOf(c, name), name, tick) }

  predicate AltersState(st: AlertState, name: Name, tick: Inputs) {
    if name !in tick.rules || !tick.rules[name].enabled then st.active
    else if !tick.condition(name).known then false
    else if tick.condition(name).active then !st.active || st.clearSince != UNSET
    else
      var hold := tick.rules[name].clearHold;
      st.active && (hold <= 0 || if st.clearSince == UNSET then tick.now != UNSET else tick.now - st.clearSince >= hold)
  }

  /** A write that succeeds. */
  predicate Writes(c: Core, name: Name, tick: Inputs) { Saving(c, name, tick) && tick.saves(name) }

  predicate SomeWrite(c: Core, names: seq<Name>, tick: Inputs) { exists j :: 0 <= j < |names| && Writes(c, names[j], tick) }

  /** Every change is followed, or accompanied, by a write that succeeds. */
  predicate Covered(c: Core, names: seq<Name>, tick: Inputs) {
    forall i :: 0 <= i < |names| && Alters(c, names[i], tick) ==> exists j :: i <= j < |names| && Writes(c, names[j], tick)
  }

  predicate FailoverAlters(c: Core, tick: Inputs) {
    var name := Config.FailoverEvent;
    && name in tick.rules && tick.rules[name].enabled && tick.interfaces.Some?
    && (!c.failoverReady || tick.interfaces.value != c.failoverSet)
  }

  lemma AltersMeans(st: AlertState, name: Name, tick: Inputs)
    ensures HeldOf(Next(st, name, tick)) != HeldOf(st) <==> AltersState(st, name, tick)
  {
  }

  lemma SavedAtProject(c: Core, name: Name)
    ensures SavedAt(Project(c), name) == HeldOf(StateOf(c, name))
  {
  }

  lemma SavedSame(s: Saved, t: Saved)
    requires s.failoverSet == t.failoverSet && (s.failoverReady <==> t.failoverReady)
    requires forall n :: SavedAt(s, n) == SavedAt(t, n)
    ensures s == t
  {
    forall n ensures n in s.states <==> n in t.states {
      assert SavedAt(s, n) == SavedAt(t, n);
    }
    forall n | n in s.states ensures s.states[n] == t.states[n] {
      assert SavedAt(s, n) == SavedAt(t, n);
    }
  }

  lemma SameState(c: Core, d: Core, name: Name, tick: Inputs)
    requires SameAt(c, d, name)
    ensures StateOf(c, name) == StateOf(d, name) && (Saving(c, name, tick) <==> Saving(d, name, tick))
    ensures Alters(c, name, tick) <==> Alters(d, name, tick)
  {
  }

  /** The failover baseline is the same. */
  predicate SameBaseline(c: Core, d: Core) { d.failoverSet == c.failoverSet && d.failoverReady == c.failoverReady }

  lemma RaisedBaseline(c: Core, name: Name, rule: Rule, tick: Inputs)
    ensures SameBaseline(c, RaisedStep(c, name, rule, tick))
  {
    hide Project, Message;
  }

  lemma ClearedBaseline(c: Core, name: Name, rule: Rule, tick: Inputs)
    ensures SameBaseline(c, ClearedStep(c, name, rule, tick))
  {
    hide Project, Message;
  }

  lemma RemovedBaseline(c: Core, name: Name, rule: Rule, tick: Inputs)
    ensures SameBaseline(c, DroppedStep(c, name, tick)) && SameBaseline(c, DisabledStep(c, name, rule, tick))
  {
    hide Project, Message;
  }

  lemma StepFailover(c: Core, name: Name, tick: Inputs)
    ensures SameBaseline(c, AlertStep(c, name, tick))
  {
    hide RaisedStep, ClearedStep, DroppedStep, DisabledStep;
    var rule := if name in tick.rules then tick.rules[name] else Rule(false, Info, 0);
    RaisedBaseline(c, name, rule, tick);
    ClearedBaseline(c, name, rule, tick);
    RemovedBaseline(c, name, rule, tick);
  }

  /** A step that alters nothing leaves what the store should hold alone; one that does changes what it should
      hold about its alert, and nothing else. */
  lemma StepProject(c: Core, name: Name, tick: Inputs)
    ensures !Alters(c, name, tick) ==> Project(AlertStep(c, name, tick)) == Project(c)
    ensures Alters(c, name, tick) ==> SavedAt(Project(AlertStep(c, name, tick)), name) != SavedAt(Project(c), name)
  {
    hide AlertStep, HeldOf, AltersState, Next, StateOf;
    var d := AlertStep(c, name, tick);
    OwnNext(c, name, tick);
    AltersMeans(StateOf(c, name), name, tick);
    SavedAtProject(c, name);
    SavedAtProject(d, name);
    StepFailover(c, name, tick);
    if !Alters(c, name, tick) {
      forall n ensures SavedAt(Project(d), n) == SavedAt(Project(c), n) {
        if n != name {
          OtherStepKeeps(c, name, n, tick);
          SameState(c, d, n, tick);
          SavedAtProject(c, n);
          SavedAtProject(d, n);
        }
      }
      SavedSame(Project(d), Project(c));
    }
  }

  lemma {:induction false} StepsFailover(c: Core, names: seq<Name>, tick: Inputs)
    ensures SameBaseline(c, AlertSteps(c, names, tick))
  {
    hide AlertStep;
    if names != [] {
      StepsFailover(c, names[..|names| - 1], tick);
      StepFailover(AlertSteps(c, names[..|names| - 1], tick), names[|names| - 1], tick);
    }
  }

  lemma ElsewhereHeld(c: Core, names: seq<Name>, name: Name, tick: Inputs)
    requires name !in names
    ensures SavedAt(Project(AlertSteps(c, names, tick)), name) == SavedAt(Project(c), name)
    ensures Saving(AlertSteps(c, names, tick), name, tick) <==> Saving(c, name, tick)
    ensures Alters(AlertSteps(c, names, tick), name, tick) <==> Alters(c, name, tick)
  {
    hide AlertSteps, Saving, Alters, Project, SavedAt, SameAt, HeldOf;
    StepsElsewhere(c, names, name, tick);
    SameState(c, AlertSteps(c, names, tick), name, tick);
    SavedAtProject(c, name);
    SavedAtProject(AlertSteps(c, names, tick), name);
  }

  lemma {:induction false} NoWriteStore(c: Core, names: seq<Name>, tick: Inputs)
    requires DistinctNames(names) && !SomeWrite(c, names, tick)
    ensures AlertSteps(c, names, tick).store == c.store
  {
    hide AlertStep, Saving, Project;
    if names != [] {
      var front, last := names[..|names| - 1], names[|names| - 1];
      assert forall j :: 0 <= j < |front| ==> front[j] == names[j];
      assert !Writes(c, names[|names| - 1], tick);
      NoWriteStore(c, front, tick);
      ElsewhereHeld(c, front, last, tick);
      StepStore(AlertSteps(c, front, tick), last, tick);
    }
  }

  /** What every later store keeps: outside the alerts handled, the store holds what it should have held before. */
  ghost predicate HoldsElsewhere(c: Core, names: seq<Name>, stored: Saved) {
    forall n :: n !in names ==> SavedAt(stored, n) == SavedAt(Project(c), n)
  }

  lemma CoveredLast(c: Core, names: seq<Name>, tick: Inputs)
    requires names != []
    ensures var front, last := names[..|names| - 1], names[|names| - 1];
            if Writes(c, last, tick) then Covered(c, names, tick) && SomeWrite(c, names, tick)
            else
              && (Covered(c, names, tick) <==> Covered(c, front, tick) && !Alters(c, last, tick))
              && (SomeWrite(c, names, tick) <==> SomeWrite(c, front, tick))
  {
    hide Writes, Alters;
    var front, last := names[..|names| - 1], names[|names| - 1];
    assert forall j :: 0 <= j < |front| ==> front[j] == names[j];
    if Writes(c, last, tick) {
      assert Writes(c, names[|names| - 1], tick);
    } else {
      CoveredFront(c, names, tick);
    }
  }

  lemma CoveredFront(c: Core, names: seq<Name>, tick: Inputs)
    requires names != [] && !Writes(c, names[|names| - 1], tick)
    ensures Covered(c, names, tick) <==> Covered(c, names[..|names| - 1], tick) && !Alters(c, names[|names| - 1], tick)
  {
    hide Writes, Alters;
    var front, n := names[..|names| - 1], |names| - 1;
    if Covered(c, names, tick) {
      forall i | 0 <= i < |front| && Alters(c, front[i], tick) ensures exists j :: i <= j < |front| && Writes(c, front[j], tick) {
        assert Alters(c, names[i], tick);
        var j :| i <= j < |names| && Writes(c, names[j], tick);
        assert front[j] == names[j];
      }
    }
    if Covered(c, front, tick) && !Alters(c, names[n], tick) {
      forall i | 0 <= i < |names| && Alters(c, names[i], tick) ensures exists j :: i <= j < |names| && Writes(c, names[j], tick) {
        assert front[i] == names[i];
        var j :| i <= j < |front| && Writes(c, front[j], tick);
        assert Writes(c, names[j], tick);
      }
    }
  }

  lemma {:induction false} StepsExact(c: Core, names: seq<Name>, tick: Inputs)
    requires DistinctNames(names) && (InStep(c) || SomeWrite(c, names, tick))
    ensures InStep(AlertSteps(c, names, tick)) <==> Covered(c, names, tick)
    ensures HoldsElsewhere(c, names, Stored(AlertSteps(c, names, tick)))
  {
    hide AlertStep, Saving, Alters, Project, SavedAt, Covered, SomeWrite, Stored;
    if names == [] {
      NothingCovered(c, tick);
    } else {
      var front, last := names[..|names| - 1], names[|names| - 1];
      var before, d := AlertSteps(c, front, tick), AlertSteps(c, names, tick);
      assert names == front + [last];
      CoveredLast(c, names, tick);
      ElsewhereHeld(c, front, last, tick);
      StepStore(before, last, tick);
      StepProject(before, last, tick);
      StoredIs(before);
      StoredIs(d);
      if Writes(c, last, tick) {
        forall n | n !in names ensures SavedAt(Stored(d), n) == SavedAt(Project(c), n) {
          ElsewhereHeld(c, names, n, tick);
        }
      } else {
        StepsExact(c, front, tick);
        assert SavedAt(Stored(before), last) == SavedAt(Project(c), last);
      }
    }
  }

  lemma StoredIs(c: Core)
    ensures Stored(c) == if c.store.Some? then c.store.value else NOTHING_SAVED
  {
  }

  lemma NothingCovered(c: Core, tick: Inputs)
    ensures Covered(c, [], tick) && !SomeWrite(c, [], tick)
  {
  }

  lemma FailoverStore(c: Core, tick: Inputs)
    ensures var d := FailoverStep(c, tick);
            && d.states == c.states
            && (FailoverAlters(c, tick) && tick.saves(Config.FailoverEvent) ==> d.store == Some(Project(d)))
            && (FailoverAlters(c, tick) && !tick.saves(Config.FailoverEvent) ==> d.store == c.store)
            && (FailoverAlters(c, tick) ==> d.failoverReady && (!c.failoverReady || d.failoverSet != c.failoverSet))
            && (!FailoverAlters(c, tick) ==> d == c)
  {
    hide Message;
  }

  lemma SameCovered(c: Core, d: Core, names: seq<Name>, tick: Inputs)
    requires c.states == d.states
    ensures Covered(c, names, tick) <==> Covered(d, names, tick)
    ensures SomeWrite(c, names, tick) <==> SomeWrite(d, names, tick)
  {
    forall n ensures Writes(c, n, tick) == Writes(d, n, tick) && Alters(c, n, tick) == Alters(d, n, tick) {
    }
    hide Writes, Alters;
  }

  /** The writes that a tick can do without, told from the state before it. */
  predicate StoreCovered(c: Core, tick: Inputs) {
    && Covered(c, CATALOG, tick)
    && (FailoverAlters(c, tick) ==> tick.saves(Config.FailoverEvent) || SomeWrite(c, CATALOG, tick))
  }

  /** Each write of a tick may fail on its own. From a store that is in step, it is in step after the tick if and
      only if every change to what it should hold is followed by a write that succeeds. */
  lemma FailedSaveExact(c: Core, tick: Inputs)
    requires InStep(c)
    ensures InStep(TickStep(c, tick)) <==> StoreCovered(c, tick)
  {
    hide AlertSteps, FailoverStep, Covered, SomeWrite, FailoverAlters, Project;
    var d := FailoverStep(c, tick);
    CatalogDistinct();
    FailoverStore(c, tick);
    SameCovered(c, d, CATALOG, tick);
    if InStep(d) || SomeWrite(d, CATALOG, tick) {
      StepsExact(d, CATALOG, tick);
      FailoverInStep(c, tick);
    } else {
      NoWriteStore(d, CATALOG, tick);
      StepsFailover(d, CATALOG, tick);
      ProjectFailover(c);
      ProjectFailover(AlertSteps(d, CATALOG, tick));
    }
  }

  lemma ProjectFailover(c: Core)
    ensures Project(c).failoverSet == c.failoverSet && Project(c).failoverReady == c.failoverReady
  {
  }

  lemma FailoverInStep(c: Core, tick: Inputs)
    requires InStep(c)
    ensures InStep(FailoverStep(c, tick)) <==> (FailoverAlters(c, tick) ==> tick.saves(Config.FailoverEvent))
  {
    hide FailoverAlters, FailoverStep, Project;
    FailoverStore(c, tick);
    ProjectFailover(c);
    ProjectFailover(FailoverStep(c, tick));
  }

  /** A write that succeeds, with no change after it, puts the store in step, whatever it held before. */
  lemma LateSaveRepairs(c: Core, tick: Inputs, k: nat)
    requires k < |CATALOG| && Writes(c, CATALOG[k], tick)
    requires forall i :: k < i < |CATALOG| ==> !Alters(c, CATALOG[i], tick)
    ensures InStep(TickStep(c, tick))
  {
    hide AlertSteps, FailoverStep, Writes, Alters, Project;
    var d := FailoverStep(c, tick);
    CatalogDistinct();
    FailoverStore(c, tick);
    SameCovered(c, d, CATALOG, tick);
    StepsExact(d, CATALOG, tick);
  }

  /** If no write succeeds, the store stays in step exactly when the tick changes nothing it should hold. */
  lemma NoSaveExact(c: Core, tick: Inputs)
    requires InStep(c) && forall n :: !tick.saves(n)
    ensures InStep(TickStep(c, tick))
       <==> !FailoverAlters(c, tick) && forall i :: 0 <= i < |CATALOG| ==> !Alters(c, CATALOG[i], tick)
  {
    hide TickStep, Alters, FailoverAlters;
    FailedSaveExact(c, tick);
  }

  /** A tick at which one alert fires and its write fails. */
  function FiringTick(now: int): Inputs {
    Inputs(now, map[Config.OutageStarted := Rule(true, Critical, 0)],
           n => Condition(n == Config.OutageStarted, true, now, NoDetail), None, "", _ => false)
  }

  /** After it a store that was right is wrong: a restart would fire the alert again. */
  lemma FailedSaveExample(c: Core, now: int)
    requires InStep(c) && !Active(c, Config.OutageStarted)
    ensures !InStep(TickStep(c, FiringTick(now)))
  {
    hide TickStep;
    assert CATALOG[0] == Config.OutageStarted;
    assert Alters(c, CATALOG[0], FiringTick(now));
    NoSaveExact(c, FiringTick(now));
  }

  predicate InStepAt(c: Core, events: seq<Event>, k: nat)
    requires k <= |events|
  {
    InStep(Run(c, events[..k]))
  }

  predicate CoveredAt(c: Core, events: seq<Event>, k: nat)
    requires k < |events|
  {
    events[k].Ticked? ==> StoreCovered(Run(c, events[..k]), events[k].tick)
  }

  lemma EventExact(c: Core, e: Event)
    requires InStep(c)
    ensures InStep(Apply(c, e)) <==> (e.Ticked? ==> StoreCovered(c, e.tick))
  {
    hide InStep, TickStep, Restored, StoreCovered;
    if e.Ticked? {
      FailedSaveExact(c, e.tick);
    } else {
      RestartAlike(c);
      assert Sound(Restored(c.store, c.sent));
    }
  }

  lemma InStepNext(c: Core, events: seq<Event>, k: nat)
    requires k < |events| && InStepAt(c, events, k)
    ensures InStepAt(c, events, k + 1) <==> CoveredAt(c, events, k)
  {
    hide InStep, Apply, StoreCovered;
    assert events[..k + 1][..k] == events[..k];
    EventExact(Run(c, events[..k]), events[k]);
  }

  lemma {:induction false} CoveredInStep(c: Core, events: seq<Event>, k: nat)
    requires k <= |events| && InStep(c) && forall i :: 0 <= i < |events| ==> CoveredAt(c, events, i)
    ensures InStepAt(c, events, k)
  {
    hide InStep, CoveredAt;
    if k > 0 {
      CoveredInStep(c, events, k - 1);
      hide InStepAt;
      InStepNext(c, events, k - 1);
    }
  }

  /** Over every run, whichever writes fail and whenever it restarts: the store is in step after every event if
      and only if every tick's changes are covered by its own writes. */
  lemma RunInStepExact(c: Core, events: seq<Event>)
    requires InStep(c)
    ensures (forall k :: 0 <= k <= |events| ==> InStepAt(c, events, k))
       <==> (forall k :: 0 <= k < |events| ==> CoveredAt(c, events, k))
  {
    hide InStep, InStepAt, CoveredAt;
    if forall k :: 0 <= k < |events| ==> CoveredAt(c, events, k) {
      forall k | 0 <= k <= |events| ensures InStepAt(c, events, k) {
        CoveredInStep(c, events, k);
      }
    }
    if forall k :: 0 <= k <= |events| ==> InStepAt(c, events, k) {
      forall k | 0 <= k < |events| ensures CoveredAt(c, events, k) {
        assert InStepAt(c, events, k) && InStepAt(c, events, k + 1);
        InStepNext(c, events, k);
      }
    }
  }

  // ---------------------------------------------------------------- notifications alternate

  /** Whether the last notification of an alert was a firing. */
  function LastFired(sent: seq<Notification>, name: Name): bool {
    if sent == [] then false
    else
      var m := sent[|sent| - 1];
      if m.alert == name then m.state == Firing else LastFired(sent[..|sent| - 1], name)
  }

  /** The alert's notifications are firing, resolved, firing, ... in turn, starting with firing. */
  predicate Alternates(sent: seq<Notification>, name: Name) {
    sent == [] ||
    (var before, m := sent[..|sent| - 1], sent[|sent| - 1];
     Alternates(before, name) && (m.alert == name ==> (m.state == Firing <==> !LastFired(before, name))))
  }

  /** The text of the firing that an alert's last notification belongs to. */
  function LastDetail(sent: seq<Notification>, name: Name): Detail {
    if sent == [] then NoDetail
    else
      var m := sent[|sent| - 1];
      if m.alert == name then m.detail else LastDetail(sent[..|sent| - 1], name)
  }

  /** What has been sent matches the alert's state: active exactly when last seen firing, with the detail
      it fired with. */
  predicate Told(c: Core, name: Name) {
    && Alternates(c.sent, name)
    && (Active(c, name) <==> LastFired(c.sent, name))
    && (Active(c, name) ==> c.states[name].detail == LastDetail(c.sent, name))
  }

  lemma SentOne(sent: seq<Notification>, m: Notification, name: Name)
    ensures Alternates(sent + [m], name) <==>
            Alternates(sent, name) && (m.alert == name ==> (m.state == Firing <==> !LastFired(sent, name)))
    ensures LastFired(sent + [m], name) == if m.alert == name then m.state == Firing else LastFired(sent, name)
    ensures LastDetail(sent + [m], name) == if m.alert == name then m.detail else LastDetail(sent, name)
  {
    assert (sent + [m])[..|sent|] == sent;
  }

  /** Nothing about one alert differs between two engines. */
  predicate SameAt(c: Core, d: Core, name: Name) {
    (name in d.states <==> name in c.states) && (name in c.states ==> d.states[name] == c.states[name])
  }

  /** What Told says, on the parts it depends on. */
  predicate ToldBy(active: bool, detail: Detail, sent: seq<Notification>, name: Name) {
    Alternates(sent, name) && (active <==> LastFired(sent, name)) && (active ==> detail == LastDetail(sent, name))
  }

  lemma ToldParts(c: Core, name: Name)
    ensures Told(c, name) <==> ToldBy(Active(c, name), StateOf(c, name).detail, c.sent, name)
  {
  }

  lemma RaisedSent(c: Core, name: Name, rule: Rule, tick: Inputs)
    ensures var cond := tick.condition(name);
            var fired := AlertState(true, tick.now, cond.started, UNSET, cond.detail);
            RaisedStep(c, name, rule, tick).sent ==
            if Active(c, name) then c.sent else c.sent + [Message(name, rule.severity, Firing, fired, tick)]
  {
    hide Project;
    hide Message;
  }

  lemma RaisedOwn(c: Core, name: Name, rule: Rule, tick: Inputs)
    ensures var d := RaisedStep(c, name, rule, tick);
            && Active(d, name)
            && StateOf(d, name).detail == (if Active(c, name) then StateOf(c, name).detail else tick.condition(name).detail)
  {
    hide Project;
    hide Message;
  }

  lemma RaisedTold(c: Core, other: Name, name: Name, rule: Rule, tick: Inputs)
    requires Told(c, name)
    ensures Told(RaisedStep(c, other, rule, tick), name)
  {
    hide Alternates;
    hide LastFired;
    hide LastDetail;
    hide Told;
    hide RaisedStep;
    var fired := AlertState(true, tick.now, tick.condition(other).started, UNSET, tick.condition(other).detail);
    ToldParts(c, name);
    ToldParts(RaisedStep(c, other, rule, tick), name);
    RaisedSent(c, other, rule, tick);
    if other == name {
      RaisedOwn(c, name, rule, tick);
    } else {
      OtherRaisedKeeps(c, other, name, rule, tick);
    }
    SentOne(c.sent, Message(other, rule.severity, Firing, fired, tick), name);
  }

  lemma ClearedTold(c: Core, other: Name, name: Name, rule: Rule, tick: Inputs)
    requires Told(c, name)
    ensures Told(ClearedStep(c, other, rule, tick), name)
  {
    hide Project;
    hide Alternates;
    hide LastFired;
    hide LastDetail;
    SentOne(c.sent, Message(other, rule.severity, Resolved, StateOf(c, other), tick), name);
  }

  lemma DroppedTold(c: Core, other: Name, name: Name, tick: Inputs)
    requires Told(c, name) && other != name
    ensures Told(DroppedStep(c, other, tick), name)
  {
    hide Project;
  }

  lemma DisabledTold(c: Core, other: Name, name: Name, rule: Rule, tick: Inputs)
    requires Told(c, name)
    ensures Told(DisabledStep(c, other, rule, tick), name)
  {
    hide Project;
    hide Alternates;
    hide LastFired;
    hide LastDetail;
    if other in c.states {
      SentOne(c.sent, Message(other, rule.severity, Resolved, c.states[other], tick), name);
    }
  }

  lemma StepTold(c: Core, other: Name, name: Name, tick: Inputs)
    requires Told(c, name) && (other == name ==> name in tick.rules)
    ensures Told(AlertStep(c, other, tick), name)
  {
    hide Told;
    hide DroppedStep;
    hide DisabledStep;
    hide RaisedStep;
    hide ClearedStep;
    if other in tick.rules {
      DisabledTold(c, other, name, tick.rules[other], tick);
      RaisedTold(c, other, name, tick.rules[other], tick);
      ClearedTold(c, other, name, tick.rules[other], tick);
    } else {
      DroppedTold(c, other, name, tick);
    }
  }

  /** The notifications about one alert. */
  function About(sent: seq<Notification>, name: Name): seq<Notification> {
    if sent == [] then []
    else About(sent[..|sent| - 1], name) + if sent[|sent| - 1].alert == name then [sent[|sent| - 1]] else []
  }

  lemma AboutOne(sent: seq<Notification>, m: Notification, name: Name)
    ensures About(sent + [m], name) == About(sent, name) + if m.alert == name then [m] else []
  {
    assert (sent + [m])[..|sent|] == sent;
  }

  /** Handling one alert sends nothing, or one notification about that alert. */
  predicate SendsAbout(before: seq<Notification>, after: seq<Notification>, name: Name) {
    after == before || (before < after && |after| == |before| + 1 && after[|before|].alert == name)
  }

  lemma StepSends(c: Core, name: Name, tick: Inputs)
    ensures SendsAbout(c.sent, AlertStep(c, name, tick).sent, name)
  {
    hide RaisedStep;
    hide ClearedStep;
    hide DisabledStep;
    hide DroppedStep;
    hide SendsAbout;
    SendsNothing(c.sent, name);
    if name !in tick.rules {
      DroppedSends(c, name, tick);
    } else {
      RaisedSends(c, name, tick.rules[name], tick);
      ClearedSends(c, name, tick.rules[name], tick);
      DisabledSends(c, name, tick.rules[name], tick);
    }
  }

  lemma SendsNothing(sent: seq<Notification>, name: Name)
    ensures SendsAbout(sent, sent, name)
  {
  }

  lemma SendsOne(sent: seq<Notification>, m: Notification)
    ensures SendsAbout(sent, sent + [m], m.alert)
  {
  }

  lemma RaisedSends(c: Core, name: Name, rule: Rule, tick: Inputs)
    ensures SendsAbout(c.sent, RaisedStep(c, name, rule, tick).sent, name)
  {
    hide RaisedStep;
    hide SendsAbout;
    SendsNothing(c.sent, name);
    RaisedSent(c, name, rule, tick);
    var fired := AlertState(true, tick.now, tick.condition(name).started, UNSET, tick.condition(name).detail);
    SendsOne(c.sent, Message(name, rule.severity, Firing, fired, tick));
  }

  lemma ClearedSends(c: Core, name: Name, rule: Rule, tick: Inputs)
    ensures SendsAbout(c.sent, ClearedStep(c, name, rule, tick).sent, name)
  {
    hide Project;
    hide SendsAbout;
    SendsNothing(c.sent, name);
    SendsOne(c.sent, Message(name, rule.severity, Resolved, StateOf(c, name), tick));
  }

  lemma DisabledSends(c: Core, name: Name, rule: Rule, tick: Inputs)
    ensures SendsAbout(c.sent, DisabledStep(c, name, rule, tick).sent, name)
  {
    hide Project;
    hide SendsAbout;
    SendsNothing(c.sent, name);
    SendsOne(c.sent, Message(name, rule.severity, Resolved, StateOf(c, name), tick));
  }

  lemma DroppedSends(c: Core, name: Name, tick: Inputs)
    ensures SendsAbout(c.sent, DroppedStep(c, name, tick).sent, name)
  {
    hide Project;
  }

  /** What was sent about an alert, and its state, are as before. */
  predicate Untouched(c: Core, d: Core, name: Name) {
    && SameAt(c, d, name) && About(d.sent, name) == About(c.sent, name)
    && (Alternates(d.sent, name) <==> Alternates(c.sent, name))
    && LastFired(d.sent, name) == LastFired(c.sent, name) && LastDetail(d.sent, name) == LastDetail(c.sent, name)
  }

  lemma SentElsewhere(before: seq<Notification>, after: seq<Notification>, other: Name, name: Name)
    requires SendsAbout(before, after, other) && other != name
    ensures About(after, name) == About(before, name) && (Alternates(after, name) <==> Alternates(before, name))
    ensures LastFired(after, name) == LastFired(before, name) && LastDetail(after, name) == LastDetail(before, name)
  {
    if after != before {
      assert after == before + [after[|before|]];
      AboutOne(before, after[|before|], name);
      SentOne(before, after[|before|], name);
    }
  }

  lemma OtherStepUntouched(c: Core, other: Name, name: Name, tick: Inputs)
    requires other != name
    ensures Untouched(c, AlertStep(c, other, tick), name)
  {
    hide AlertStep;
    hide SendsAbout;
    OtherStepKeeps(c, other, name, tick);
    StepSends(c, other, tick);
    SentElsewhere(c.sent, AlertStep(c, other, tick).sent, other, name);
  }

  lemma FailoverUntouched(c: Core, name: Name, tick: Inputs)
    requires !name.FailoverEvent?
    ensures Untouched(c, FailoverStep(c, tick), name)
  {
    assert FailoverStep(c, tick).states == c.states;
    FailoverSends(c, tick);
    hide FailoverStep;
    SentElsewhere(c.sent, FailoverStep(c, tick).sent, Config.FailoverEvent, name);
  }

  lemma FailoverSends(c: Core, tick: Inputs)
    ensures SendsAbout(c.sent, FailoverStep(c, tick).sent, Config.FailoverEvent)
  {
    hide Project;
  }

  lemma {:induction false} StepsUntouched(c: Core, names: seq<Name>, name: Name, tick: Inputs)
    requires name !in names
    ensures Untouched(c, AlertSteps(c, names, tick), name)
  {
    hide AlertStep;
    if names != [] {
      StepsUntouched(c, names[..|names| - 1], name, tick);
      OtherStepUntouched(AlertSteps(c, names[..|names| - 1], tick), names[|names| - 1], name, tick);
    }
  }

  lemma UntouchedTold(c: Core, d: Core, name: Name)
    requires Untouched(c, d, name)
    ensures Told(d, name) <==> Told(c, name)
    ensures Active(d, name) <==> Active(c, name)
  {
  }

  /** The rules no longer name an alert that is active. */
  predicate DropsActive(c: Core, name: Name, tick: Inputs) { name !in tick.rules && Active(c, name) }

  lemma OwnStepTold(c: Core, name: Name, tick: Inputs)
    requires Told(c, name)
    ensures Told(AlertStep(c, name, tick), name) <==> !DropsActive(c, name, tick)
  {
    if name in tick.rules {
      StepTold(c, name, name, tick);
    } else {
      hide Alternates;
      hide Project;
      var d := AlertStep(c, name, tick);
      assert !Active(d, name) && d.sent == c.sent;
    }
  }

  predicate DistinctNames(names: seq<Name>) { forall i, j :: 0 <= i < j < |names| ==> names[i] != names[j] }

  lemma {:induction false} StepsToldExact(c: Core, names: seq<Name>, name: Name, tick: Inputs)
    requires Told(c, name) && DistinctNames(names)
    ensures Told(AlertSteps(c, names, tick), name) <==> !(name in names && DropsActive(c, name, tick))
  {
    hide AlertStep;
    hide Told;
    hide Untouched;
    if names != [] {
      var front, last := names[..|names| - 1], names[|names| - 1];
      var before := AlertSteps(c, front, tick);
      assert name in names <==> name in front || name == last;
      StepsToldExact(c, front, name, tick);
      if last == name {
        StepsUntouched(c, front, name, tick);
        UntouchedTold(c, before, name);
        OwnStepTold(before, name, tick);
      } else {
        OtherStepUntouched(before, last, name, tick);
        UntouchedTold(before, AlertStep(before, last, tick), name);
      }
    }
  }

  /** After a tick what was told about an alert matches its state if and only if the tick did not drop the
      alert's rule while it was active. */
  lemma TickToldExact(c: Core, name: Name, tick: Inputs)
    requires Told(c, name) && !name.FailoverEvent?
    ensures Told(TickStep(c, tick), name) <==> !(name in CATALOG && DropsActive(c, name, tick))
  {
    hide Told;
    hide AlertSteps;
    hide FailoverStep;
    hide Untouched;
    CatalogDistinct();
    FailoverUntouched(c, name, tick);
    UntouchedTold(c, FailoverStep(c, tick), name);
    StepsToldExact(FailoverStep(c, tick), CATALOG, name, tick);
  }

  lemma RestartTold(c: Core, name: Name)
    requires InStep(c)
    ensures var d := Restored(c.store, c.sent);
            (Told(d, name) <==> Told(c, name)) && (Active(d, name) <==> Active(c, name)) && d.sent == c.sent
  {
    RestartAlike(c);
    AlikeActive(Restored(c.store, c.sent), c, name);
  }

  predicate NeverDrops(c: Core, events: seq<Event>, name: Name) {
    forall k :: 0 <= k < |events| ==> KeptAt(c, events, name, k)
  }

  predicate AlwaysTold(c: Core, events: seq<Event>, name: Name) {
    forall k :: 0 <= k <= |events| ==> ToldAt(c, events, name, k)
  }

  predicate ToldAt(c: Core, events: seq<Event>, name: Name, k: nat)
    requires k <= |events|
  {
    Told(Run(c, events[..k]), name)
  }

  /** For every catalog alert but the failover event, over every run, with failing writes as long as a
      restart finds the store in step: firing and resolved notifications alternate, starting with firing, and the
      alert is active exactly when last seen firing, after every event, if and only if no tick drops the alert's
      rule while it is active. */
  lemma {:induction false} RunToldExact(c: Core, events: seq<Event>, name: Name)
    requires Told(c, name) && RestartsRead(c, events) && name in CATALOG
    ensures AlwaysTold(c, events, name) <==> NeverDrops(c, events, name)
  {
    hide Told;
    hide TickStep;
    hide InStep;
    if events == [] {
      assert events[..0] == [];
    } else {
      var n := |events| - 1;
      var front, e := events[..n], events[n];
      RestartsReadFront(c, events);
      RunToldExact(c, front, name);
      hide RestartsRead;
      FrontTold(c, events, name);
      if Told(Run(c, front), name) {
        if e.Ticked? {
          CatalogNames(name);
          TickToldExact(Run(c, front), name, e.tick);
        } else {
          RestartTold(Run(c, front), name);
        }
      }
    }
  }

  lemma CatalogNames(name: Name)
    requires name in CATALOG
    ensures !name.FailoverEvent?
  {
  }

  lemma FrontTold(c: Core, events: seq<Event>, name: Name)
    requires events != []
    ensures var n := |events| - 1;
            && (AlwaysTold(c, events, name) <==> AlwaysTold(c, events[..n], name) && Told(Run(c, events), name))
            && (AlwaysTold(c, events[..n], name) ==> Told(Run(c, events[..n]), name))
            && (NeverDrops(c, events, name) <==> NeverDrops(c, events[..n], name) && KeptAt(c, events, name, n))
  {
    FrontAlways(c, events, name);
    FrontNever(c, events, name);
  }

  predicate KeptAt(c: Core, events: seq<Event>, name: Name, k: nat)
    requires k < |events|
  {
    events[k].Ticked? ==> !DropsActive(Run(c, events[..k]), name, events[k].tick)
  }

  lemma ToldAtEnd(c: Core, events: seq<Event>, name: Name)
    ensures ToldAt(c, events, name, |events|) == Told(Run(c, events), name)
  {
    assert events[..|events|] == events;
  }

  lemma ToldAtPrefix(c: Core, events: seq<Event>, name: Name, n: nat, k: nat)
    requires k <= n <= |events|
    ensures ToldAt(c, events[..n], name, k) == ToldAt(c, events, name, k)
  {
    assert events[..n][..k] == events[..k];
  }

  lemma FrontAlways(c: Core, events: seq<Event>, name: Name)
    requires events != []
    ensures var n := |events| - 1;
            && (AlwaysTold(c, events, name) <==> AlwaysTold(c, events[..n], name) && Told(Run(c, events), name))
            && (AlwaysTold(c, events[..n], name) ==> Told(Run(c, events[..n]), name))
  {
    hide Told;
    hide Run;
    hide ToldAt;
    var n := |events| - 1;
    ToldAtEnd(c, events, name);
    ToldAtEnd(c, events[..n], name);
    forall k | 0 <= k <= n ensures ToldAt(c, events[..n], name, k) == ToldAt(c, events, name, k) {
      ToldAtPrefix(c, events, name, n, k);
    }
  }

  lemma FrontNever(c: Core, events: seq<Event>, name: Name)
    requires events != []
    ensures var n := |events| - 1;
            NeverDrops(c, events, name) <==> NeverDrops(c, events[..n], name) && KeptAt(c, events, name, n)
  {
    var n := |events| - 1;
    var front := events[..n];
    forall k | 0 <= k < n ensures KeptAt(c, front, name, k) == KeptAt(c, events, name, k) {
      assert front[..k] == events[..k] && front[k] == events[k];
    }
    hide KeptAt;
  }

  predicate KeepsRule(events: seq<Event>, name: Name) {
    forall i :: 0 <= i < |events| && events[i].Ticked? ==> name in events[i].tick.rules
  }

  /** In particular while the rules keep the alert's name. */
  lemma RunTold(c: Core, events: seq<Event>, name: Name)
    requires Told(c, name) && RestartsRead(c, events) && name in CATALOG && KeepsRule(events, name)
    ensures Told(Run(c, events), name)
  {
    hide Told;
    hide Run;
    hide RestartsRead;
    RunToldExact(c, events, name);
    assert NeverDrops(c, events, name);
    ToldAtEnd(c, events, name);
  }

  // ---------------------------------------------------------------- after a drop

  /** The alert is idle but was last seen firing: the resolution it owes can no longer come. */
  predicate Owing(c: Core, name: Name) { !Active(c, name) && LastFired(c.sent, name) }

  lemma {:induction false} AlternatesPrefix(sent: seq<Notification>, n: nat, name: Name)
    requires n <= |sent| && Alternates(sent, name)
    ensures Alternates(sent[..n], name)
  {
    if n == |sent| {
      assert sent[..n] == sent;
    } else {
      var front := sent[..|sent| - 1];
      AlternatesPrefix(front, n, name);
      assert front[..n] == sent[..n];
    }
  }

  /** Nothing more was said about the alert and it still owes, or what was said no longer alternates. */
  predicate OwesOrBroken(c: Core, d: Core, name: Name) {
    (Owing(d, name) && About(d.sent, name) == About(c.sent, name) && (Alternates(d.sent, name) <==> Alternates(c.sent, name)))
    || (!Alternates(d.sent, name) && |About(d.sent, name)| > |About(c.sent, name)|)
  }

  lemma OwnStepOwes(c: Core, name: Name, tick: Inputs)
    requires Owing(c, name)
    ensures OwesOrBroken(c, AlertStep(c, name, tick), name)
  {
    hide LastFired;
    hide Alternates;
    hide About;
    if name in tick.rules && tick.rules[name].enabled && tick.condition(name).known && tick.condition(name).active {
      var fired := AlertState(true, tick.now, tick.condition(name).started, UNSET, tick.condition(name).detail);
      var m := Message(name, tick.rules[name].severity, Firing, fired, tick);
      RaisedSent(c, name, tick.rules[name], tick);
      hide RaisedStep;
      AboutOne(c.sent, m, name);
      SentOne(c.sent, m, name);
    } else {
      IdleStep(c, name, tick);
      hide AlertStep;
    }
  }

  lemma IdleStep(c: Core, name: Name, tick: Inputs)
    requires !Active(c, name)
    requires name in tick.rules && tick.rules[name].enabled && tick.condition(name).known ==> !tick.condition(name).active
    ensures AlertStep(c, name, tick).sent == c.sent && !Active(AlertStep(c, name, tick), name)
  {
    hide Project;
    hide RaisedStep;
  }

  lemma StepBroken(c: Core, other: Name, name: Name, tick: Inputs)
    requires !Alternates(c.sent, name)
    ensures !Alternates(AlertStep(c, other, tick).sent, name)
    ensures |About(AlertStep(c, other, tick).sent, name)| >= |About(c.sent, name)|
  {
    hide AlertStep;
    StepSends(c, other, tick);
    var d := AlertStep(c, other, tick);
    if d.sent != c.sent {
      assert d.sent == c.sent + [d.sent[|c.sent|]];
      AboutOne(c.sent, d.sent[|c.sent|], name);
      SentOne(c.sent, d.sent[|c.sent|], name);
    }
  }

  lemma {:induction false} StepsOwe(c: Core, names: seq<Name>, name: Name, tick: Inputs)
    requires Owing(c, name)
    ensures OwesOrBroken(c, AlertSteps(c, names, tick), name)
  {
    hide AlertStep;
    hide Alternates;
    hide About;
    hide LastFired;
    if names != [] {
      var front, last := names[..|names| - 1], names[|names| - 1];
      var before := AlertSteps(c, front, tick);
      StepsOwe(c, front, name, tick);
      if !Owing(before, name) || About(before.sent, name) != About(c.sent, name) {
        StepBroken(before, last, name, tick);
      } else if last == name {
        OwnStepOwes(before, name, tick);
      } else {
        OtherStepUntouched(before, last, name, tick);
      }
    }
  }

  lemma {:induction false} StepsBroken(c: Core, names: seq<Name>, name: Name, tick: Inputs)
    requires !Alternates(c.sent, name)
    ensures !Alternates(AlertSteps(c, names, tick).sent, name)
    ensures |About(AlertSteps(c, names, tick).sent, name)| >= |About(c.sent, name)|
  {
    hide AlertStep;
    if names != [] {
      StepsBroken(c, names[..|names| - 1], name, tick);
      StepBroken(AlertSteps(c, names[..|names| - 1], tick), names[|names| - 1], name, tick);
    }
  }

  lemma TickOwes(c: Core, d: Core, name: Name, tick: Inputs)
    requires OwesOrBroken(c, d, name) && !name.FailoverEvent?
    ensures OwesOrBroken(c, TickStep(d, tick), name)
  {
    hide AlertSteps;
    hide FailoverStep;
    hide Alternates;
    hide About;
    hide LastFired;
    FailoverUntouched(d, name, tick);
    if Owing(d, name) {
      StepsOwe(FailoverStep(d, tick), CATALOG, name, tick);
      if !Alternates(d.sent, name) {
        StepsBroken(FailoverStep(d, tick), CATALOG, name, tick);
      }
    } else {
      StepsBroken(FailoverStep(d, tick), CATALOG, name, tick);
    }
  }

  lemma {:induction false} RunOwes(c: Core, events: seq<Event>, name: Name)
    requires Owing(c, name) && RestartsRead(c, events) && name in CATALOG
    ensures OwesOrBroken(c, Run(c, events), name)
  {
    hide OwesOrBroken;
    hide TickStep;
    hide InStep;
    if events == [] {
      assert OwesOrBroken(c, c, name) by {
        OwesItself(c, name);
      }
    } else {
      var front, e := events[..|events| - 1], events[|events| - 1];
      RestartsReadFront(c, events);
      RunOwes(c, front, name);
      if e.Ticked? {
        CatalogNames(name);
        TickOwes(c, Run(c, front), name, e.tick);
      } else {
        RestartTold(Run(c, front), name);
        SameOwes(c, Run(c, front), Restored(Run(c, front).store, Run(c, front).sent), name);
      }
    }
  }

  lemma OwesItself(c: Core, name: Name)
    requires Owing(c, name)
    ensures OwesOrBroken(c, c, name)
  {
  }

  lemma SameOwes(c: Core, d: Core, e: Core, name: Name)
    requires OwesOrBroken(c, d, name) && e.sent == d.sent && (Active(e, name) <==> Active(d, name))
    ensures OwesOrBroken(c, e, name)
  {
  }

  lemma DropOwes(c: Core, name: Name, tick: Inputs)
    requires Told(c, name) && name in CATALOG && DropsActive(c, name, tick)
    ensures var d := TickStep(c, tick);
            Owing(d, name) && About(d.sent, name) == About(c.sent, name) && Alternates(d.sent, name)
  {
    hide AlertSteps;
    hide FailoverStep;
    CatalogNames(name);
    CatalogDistinct();
    FailoverUntouched(c, name, tick);
    StepsDrop(FailoverStep(c, tick), CATALOG, name, tick);
  }

  lemma {:induction false} StepsDrop(c: Core, names: seq<Name>, name: Name, tick: Inputs)
    requires name in names && DistinctNames(names) && name !in tick.rules
    ensures var d := AlertSteps(c, names, tick);
            && !Active(d, name) && About(d.sent, name) == About(c.sent, name)
            && (Alternates(d.sent, name) <==> Alternates(c.sent, name)) && LastFired(d.sent, name) == LastFired(c.sent, name)
  {
    hide Alternates;
    hide About;
    hide LastFired;
    hide Project;
    var front, last := names[..|names| - 1], names[|names| - 1];
    var before := AlertSteps(c, front, tick);
    if last == name {
      StepsUntouched(c, front, name, tick);
      OwnStepDrops(before, name, tick);
    } else {
      assert name in front;
      StepsDrop(c, front, name, tick);
      hide AlertStep;
      OtherStepUntouched(before, last, name, tick);
    }
  }

  lemma OwnStepDrops(c: Core, name: Name, tick: Inputs)
    requires name !in tick.rules
    ensures !Active(AlertStep(c, name, tick), name) && AlertStep(c, name, tick).sent == c.sent
  {
    hide Project;
  }

  /** After a tick has dropped the rule of an active alert, alternation survives if and only if nothing is ever
      sent about the alert again: the next notification repeats a firing. */
  lemma DroppedRuleRepeats(c: Core, tick: Inputs, more: seq<Event>, name: Name)
    requires Told(c, name) && name in CATALOG && DropsActive(c, name, tick) && RestartsRead(TickStep(c, tick), more)
    ensures Alternates(Run(TickStep(c, tick), more).sent, name)
       <==> About(Run(TickStep(c, tick), more).sent, name) == About(c.sent, name)
  {
    hide TickStep;
    hide Run;
    hide Alternates;
    hide About;
    DropOwes(c, name, tick);
    RunOwes(TickStep(c, tick), more, name);
  }

  // ---------------------------------------------------------------- the clearing delay

  /** The rule is in force and the condition is not known to hold: the alert may be clearing. */
  predicate Quiet(tick: Inputs, name: Name) {
    && name in tick.rules && tick.rules[name].enabled
    && !(tick.condition(name).known && tick.condition(name).active)
  }

  /** The alert has been clearing since event j: that tick set the time, and no tick since has raised it. */
  predicate ClearingFrom(events: seq<Event>, name: Name, since: int, j: nat) {
    && j < |events| && events[j].Ticked? && events[j].tick.now == since
    && forall i :: j <= i < |events| && events[i].Ticked? ==> Quiet(events[i].tick, name)
  }

  lemma PutKeeps(c: Core, d: Core, other: Name, st: AlertState, name: Name, saves: bool, m: Notification)
    requires other != name && SameAt(c, d, name)
    ensures SameAt(c, Put(d, other, st), name) && SameAt(c, Persist(d, saves), name) && SameAt(c, Emit(d, m), name)
  {
    hide Project;
  }

  lemma OtherRaisedKeeps(c: Core, other: Name, name: Name, rule: Rule, tick: Inputs)
    requires other != name
    ensures SameAt(c, RaisedStep(c, other, rule, tick), name)
  {
    hide Project;
    hide Message;
    hide SameAt;
    hide Put;
    hide Persist;
    hide Emit;
    var st := StateOf(c, other);
    var quiet := st.(clearSince := UNSET);
    var fired := AlertState(true, tick.now, tick.condition(other).started, UNSET, tick.condition(other).detail);
    var m := Message(other, rule.severity, Firing, fired, tick);
    var kept := Put(c, other, st);
    var calm := if st.clearSince != UNSET then Persist(Put(kept, other, quiet), tick.saves(other)) else kept;
    assert SameAt(c, c, name) by {
      SameItself(c, name);
    }
    PutKeeps(c, c, other, st, name, tick.saves(other), m);
    PutKeeps(c, kept, other, quiet, name, tick.saves(other), m);
    PutKeeps(c, Put(kept, other, quiet), other, quiet, name, tick.saves(other), m);
    PutKeeps(c, calm, other, fired, name, tick.saves(other), m);
    PutKeeps(c, Put(calm, other, fired), other, fired, name, tick.saves(other), m);
    PutKeeps(c, Emit(Put(calm, other, fired), m), other, fired, name, tick.saves(other), m);
  }

  lemma SameItself(c: Core, name: Name)
    ensures SameAt(c, c, name)
  {
  }

  lemma OtherClearedKeeps(c: Core, other: Name, name: Name, rule: Rule, tick: Inputs)
    requires other != name
    ensures SameAt(c, ClearedStep(c, other, rule, tick), name)
  {
    hide Project;
    hide Message;
    hide SameAt;
    hide Put;
    hide Persist;
    hide Emit;
    var st := StateOf(c, other);
    var kept := Put(c, other, st);
    var waiting := st.(clearSince := tick.now);
    var m := Message(other, rule.severity, Resolved, st, tick);
    SameItself(c, name);
    PutKeeps(c, c, other, st, name, tick.saves(other), m);
    PutKeeps(c, kept, other, waiting, name, tick.saves(other), m);
    PutKeeps(c, Put(kept, other, waiting), other, waiting, name, tick.saves(other), m);
    PutKeeps(c, Emit(kept, m), other, IDLE, name, tick.saves(other), m);
    PutKeeps(c, Put(Emit(kept, m), other, IDLE), other, IDLE, name, tick.saves(other), m);
  }

  lemma ForgetKeeps(c: Core, d: Core, other: Name, name: Name, saves: bool)
    requires other != name && SameAt(c, d, name)
    ensures SameAt(c, Persist(Forget(d, other), saves), name)
  {
    hide Project;
  }

  lemma EmitKeeps(c: Core, m: Notification, name: Name)
    ensures SameAt(c, Emit(c, m), name) && SameAt(c, c, name)
  {
  }

  lemma OtherRemovedKeeps(c: Core, other: Name, name: Name, rule: Rule, tick: Inputs)
    requires other != name
    ensures SameAt(c, DroppedStep(c, other, tick), name) && SameAt(c, DisabledStep(c, other, rule, tick), name)
  {
    hide Message, SameAt, Persist, Forget, Emit;
    var m := Message(other, rule.severity, Resolved, StateOf(c, other), tick);
    EmitKeeps(c, m, name);
    ForgetKeeps(c, c, other, name, tick.saves(other));
    ForgetKeeps(c, Emit(c, m), other, name, tick.saves(other));
  }

  lemma OtherStepKeeps(c: Core, other: Name, name: Name, tick: Inputs)
    requires other != name
    ensures SameAt(c, AlertStep(c, other, tick), name)
  {
    hide DroppedStep;
    hide DisabledStep;
    hide RaisedStep;
    hide ClearedStep;
    OtherRemovedKeeps(c, other, name, if other in tick.rules then tick.rules[other] else Rule(false, Info, 0), tick);
    if other in tick.rules {
      OtherRaisedKeeps(c, other, name, tick.rules[other], tick);
      OtherClearedKeeps(c, other, name, tick.rules[other], tick);
    }
  }

  /** A step for the alert itself: a clearing time is either kept through a quiet tick or set now. */
  lemma OwnStepClearing(c: Core, name: Name, tick: Inputs)
    ensures var since := StateOf(AlertStep(c, name, tick), name).clearSince;
            since != UNSET ==> Quiet(tick, name) && (since == StateOf(c, name).clearSince || since == tick.now)
  {
    OwnNext(c, name, tick);
    hide AlertStep, StateOf;
  }

  lemma {:induction false} StepsClearing(c: Core, names: seq<Name>, name: Name, tick: Inputs)
    requires name in names && forall i, j :: 0 <= i < j < |names| ==> names[i] != names[j]
    ensures var since := StateOf(AlertSteps(c, names, tick), name).clearSince;
            since != UNSET ==> Quiet(tick, name) && (since == StateOf(c, name).clearSince || since == tick.now)
  {
    var front, last := names[..|names| - 1], names[|names| - 1];
    if last == name {
      StepsElsewhere(c, front, name, tick);
      OwnStepClearing(AlertSteps(c, front, tick), name, tick);
    } else {
      assert name in front;
      StepsClearing(c, front, name, tick);
      OtherStepKeeps(AlertSteps(c, front, tick), last, name, tick);
    }
  }

  lemma {:induction false} StepsElsewhere(c: Core, names: seq<Name>, name: Name, tick: Inputs)
    requires name !in names
    ensures SameAt(c, AlertSteps(c, names, tick), name)
  {
    if names != [] {
      StepsElsewhere(c, names[..|names| - 1], name, tick);
      OtherStepKeeps(AlertSteps(c, names[..|names| - 1], tick), names[|names| - 1], name, tick);
    }
  }

  lemma CatalogDistinct()
    ensures forall i, j :: 0 <= i < j < |CATALOG| ==> CATALOG[i] != CATALOG[j]
  {
  }

  lemma TickClearingFrom(c: Core, name: Name, tick: Inputs)
    requires name in CATALOG
    ensures var since := StateOf(TickStep(c, tick), name).clearSince;
            since != UNSET ==> Quiet(tick, name) && (since == StateOf(c, name).clearSince || since == tick.now)
  {
    hide AlertSteps;
    CatalogDistinct();
    assert FailoverStep(c, tick).states == c.states;
    StepsClearing(FailoverStep(c, tick), CATALOG, name, tick);
  }

  lemma RestartClearing(c: Core, name: Name)
    requires InStep(c)
    ensures var since := StateOf(Restored(c.store, c.sent), name).clearSince;
            since != UNSET ==> since == StateOf(c, name).clearSince
  {
    RestartAlike(c);
    AlikeActive(Restored(c.store, c.sent), c, name);
  }

  /** After an event a clearing time is the one before, or the clock of the event. */
  lemma EventClearing(c: Core, name: Name, e: Event)
    requires name in CATALOG && (e.Restart? ==> InStep(c))
    ensures var since := StateOf(Apply(c, e), name).clearSince;
            since != UNSET ==> (e.Ticked? ==> Quiet(e.tick, name))
                               && (since == StateOf(c, name).clearSince || (e.Ticked? && since == e.tick.now))
  {
    hide TickStep, Restored, StateOf, Quiet, InStep;
    if e.Ticked? {
      TickClearingFrom(c, name, e.tick);
    } else {
      RestartClearing(c, name);
    }
  }

  lemma ClearingLonger(events: seq<Event>, name: Name, since: int, j: nat)
    requires events != [] && ClearingFrom(events[..|events| - 1], name, since, j)
    requires events[|events| - 1].Ticked? ==> Quiet(events[|events| - 1].tick, name)
    ensures ClearingFrom(events, name, since, j)
  {
    hide Quiet;
    var front := events[..|events| - 1];
    assert forall i :: 0 <= i < |front| ==> front[i] == events[i];
  }

  /** A set clearing time always belongs to a tick from which on the alert has stayed quiet, restarts or not. */
  lemma {:induction false} ClearingHistory(c: Core, events: seq<Event>, name: Name) returns (j: nat)
    requires name in CATALOG && StateOf(c, name).clearSince == UNSET && RestartsRead(c, events)
    requires StateOf(Run(c, events), name).clearSince != UNSET
    ensures ClearingFrom(events, name, StateOf(Run(c, events), name).clearSince, j)
  {
    hide StateOf, Quiet, InStep, Apply;
    var front, e := events[..|events| - 1], events[|events| - 1];
    var before := Run(c, front);
    var since := StateOf(Run(c, events), name).clearSince;
    RestartsReadFront(c, events);
    EventClearing(before, name, e);
    hide RestartsRead, Run;
    if since == StateOf(before, name).clearSince {
      j := ClearingHistory(c, front, name);
      ClearingLonger(events, name, since, j);
    } else {
      j := |events| - 1;
    }
  }

  /** An alert whose rule has a hold time may resolve at this tick. */
  predicate MayResolve(st: AlertState, rule: Rule, tick: Inputs, name: Name) {
    && st.clearSince != UNSET && tick.now - st.clearSince >= rule.clearHold
    && tick.condition(name).known && !tick.condition(name).active
  }

  predicate Held(tick: Inputs, name: Name) {
    name in tick.rules && tick.rules[name].enabled && tick.rules[name].clearHold > 0
  }

  lemma OwnStepResolves(c: Core, name: Name, tick: Inputs)
    requires Held(tick, name) && Active(c, name) && !Active(AlertStep(c, name, tick), name)
    ensures MayResolve(StateOf(c, name), tick.rules[name], tick, name)
  {
    OwnNext(c, name, tick);
    hide AlertStep;
  }

  lemma {:induction false} StepsResolve(c: Core, names: seq<Name>, name: Name, tick: Inputs)
    requires name in names && forall i, j :: 0 <= i < j < |names| ==> names[i] != names[j]
    requires Held(tick, name) && Active(c, name) && !Active(AlertSteps(c, names, tick), name)
    ensures MayResolve(StateOf(c, name), tick.rules[name], tick, name)
  {
    hide AlertStep;
    var front, last := names[..|names| - 1], names[|names| - 1];
    if last == name {
      StepsElsewhere(c, front, name, tick);
      OwnStepResolves(AlertSteps(c, front, tick), name, tick);
    } else {
      assert name in front;
      OtherStepKeeps(AlertSteps(c, front, tick), last, name, tick);
      StepsResolve(c, front, name, tick);
    }
  }

  /** The delay: an alert with a clearing hold that stops being active at a tick has been quiet, without
      a single tick known to be active, since a tick at least that long ago, restarts or not. */
  lemma ResolvedAfterHold(c: Core, events: seq<Event>, name: Name, tick: Inputs) returns (j: nat)
    requires name in CATALOG && StateOf(c, name).clearSince == UNSET && RestartsRead(c, events) && Held(tick, name)
    requires Active(Run(c, events), name) && !Active(TickStep(Run(c, events), tick), name)
    ensures j < |events| && events[j].Ticked? && ClearingFrom(events, name, events[j].tick.now, j)
    ensures tick.now - events[j].tick.now >= tick.rules[name].clearHold
    ensures tick.condition(name).known && !tick.condition(name).active
  {
    hide AlertSteps, Run, RestartsRead;
    CatalogDistinct();
    assert FailoverStep(Run(c, events), tick).states == Run(c, events).states;
    StepsResolve(FailoverStep(Run(c, events), tick), CATALOG, name, tick);
    hide FailoverStep;
    j := ClearingHistory(c, events, name);
  }

  lemma UnknownStep(c: Core, name: Name, tick: Inputs)
    requires name in tick.rules && tick.rules[name].enabled && !tick.condition(name).known
    ensures AlertStep(c, name, tick) == c
  {
  }

  lemma {:induction false} UnknownSteps(c: Core, names: seq<Name>, name: Name, tick: Inputs)
    requires name in tick.rules && tick.rules[name].enabled && !tick.condition(name).known
    ensures Untouched(c, AlertSteps(c, names, tick), name)
  {
    hide AlertStep;
    if names != [] {
      var before, last := AlertSteps(c, names[..|names| - 1], tick), names[|names| - 1];
      UnknownSteps(c, names[..|names| - 1], name, tick);
      if last == name {
        UnknownStep(before, name, tick);
      } else {
        OtherStepUntouched(before, last, name, tick);
      }
    }
  }

  /** A tick that does not know the condition of an alert whose rule is in force neither changes its state nor
      sends anything about it. */
  lemma UnknownIsNeutral(c: Core, name: Name, tick: Inputs)
    requires name in tick.rules && tick.rules[name].enabled && !tick.condition(name).known && !name.FailoverEvent?
    ensures SameAt(c, TickStep(c, tick), name) && About(TickStep(c, tick).sent, name) == About(c.sent, name)
  {
    hide AlertSteps;
    hide FailoverStep;
    FailoverUntouched(c, name, tick);
    UnknownSteps(FailoverStep(c, tick), CATALOG, name, tick);
  }
}
