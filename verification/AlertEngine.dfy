/** The alert engine: a fixed catalog of alerts, each a small state machine with a clearing delay, and a
    store the engine is restored from after a restart. Conditions are inputs of a tick. */
module AlertEngine {
  import opened Basics
  import Config

  type Name = Config.AlertName

  datatype Severity = Critical | Warning | Info

  datatype Rule = Rule(enabled: bool, severity: Severity, clearHold: int)

  /** The payload of a notification: opaque text, or the change of interfaces of a failover. */
  datatype Detail = NoDetail | Text(text: string) | Interfaces(previous: string, current: string)

  /** Times are nanoseconds; zero is Go's zero time, "not set". */
  datatype AlertState = AlertState(active: bool, firedAt: int, subjectStart: int, clearSince: int, detail: Detail)

  const UNSET := 0
  const IDLE := AlertState(false, UNSET, UNSET, UNSET, NoDetail)

  datatype Phase = Firing | Resolved

  datatype Notification = Notification(
    alert: Name, severity: Severity, state: Phase, at: int, detail: Detail, duration: int, device: string)

  datatype Condition = Condition(known: bool, active: bool, started: int, detail: Detail)

  /** One tick: the clock, the rules in force, what each alert's condition evaluates to, the interfaces in use
      (None when mwan3 is absent), the device, and for each alert whether the write to the store that its
      handling may make succeeds. */
  datatype Inputs = Inputs(
    now: int, rules: map<Name, Rule>, condition: Name -> Condition, interfaces: Option<string>, device: string, saves: Name -> bool)

  datatype Saved = Saved(states: map<Name, AlertState>, failoverSet: string, failoverReady: bool)

  const NOTHING_SAVED := Saved(map[], "", false)

  /** The engine with its store and everything it has sent so far. */
  datatype Core = Core(
    states: map<Name, AlertState>, failoverSet: string, failoverReady: bool, store: Option<Saved>, sent: seq<Notification>)

  // ---------------------------------------------------------------- one alert, one tick

  predicate Active(c: Core, name: Name) { name in c.states && c.states[name].active }

  /** What the store should hold: the active states and the failover baseline. */
  function Project(c: Core): Saved {
    Saved(map n | n in c.states && c.states[n].active :: c.states[n], c.failoverSet, c.failoverReady)
  }

  function Persist(c: Core, saves: bool): Core {
    if saves then c.(store := Some(Project(c))) else c
  }

  function Max0(n: int): int { if n < 0 then 0 else n }

  function Message(name: Name, severity: Severity, phase: Phase, st: AlertState, tick: Inputs): Notification {
    var started := if st.subjectStart == UNSET then st.firedAt else st.subjectStart;
    Notification(name, severity, phase, tick.now / SECOND, st.detail,
                 if phase == Resolved then Max0(tick.now - started) else 0, tick.device)
  }

  function Emit(c: Core, m: Notification): Core { c.(sent := c.sent + [m]) }

  function Put(c: Core, name: Name, st: AlertState): Core { c.(states := c.states[name := st]) }

  function Forget(c: Core, name: Name): Core { c.(states := c.states - {name}) }

  /** The state of an alert, created on first use. */
  function StateOf(c: Core, name: Name): AlertState { if name in c.states then c.states[name] else IDLE }

  function RaisedStep(c: Core, name: Name, rule: Rule, tick: Inputs): Core {
    var st := StateOf(c, name);
    var calm := if st.clearSince != UNSET then Persist(Put(Put(c, name, st), name, st.(clearSince := UNSET)), tick.saves(name)) else Put(c, name, st);
    if st.active then calm
    else
      var fired := AlertState(true, tick.now, tick.condition(name).started, UNSET, tick.condition(name).detail);
      Persist(Emit(Put(calm, name, fired), Message(name, rule.severity, Firing, fired, tick)), tick.saves(name))
  }

  function ClearedStep(c: Core, name: Name, rule: Rule, tick: Inputs): Core {
    var st := StateOf(c, name);
    var kept := Put(c, name, st);
    if !st.active then kept
    else if rule.clearHold > 0 && st.clearSince == UNSET then Persist(Put(kept, name, st.(clearSince := tick.now)), tick.saves(name))
    else if rule.clearHold > 0 && tick.now - st.clearSince < rule.clearHold then kept
    else Persist(Put(Emit(kept, Message(name, rule.severity, Resolved, st, tick)), name, IDLE), tick.saves(name))
  }

  /** The rule is gone: the alert is dropped without a word. */
  function DroppedStep(c: Core, name: Name, tick: Inputs): Core {
    if name in c.states then Persist(Forget(c, name), tick.saves(name)) else c
  }

  /** The rule is switched off: an active alert is resolved, and then dropped. */
  function DisabledStep(c: Core, name: Name, rule: Rule, tick: Inputs): Core {
    var said := if Active(c, name) then Emit(c, Message(name, rule.severity, Resolved, c.states[name], tick)) else c;
    Persist(Forget(said, name), tick.saves(name))
  }

  function AlertStep(c: Core, name: Name, tick: Inputs): Core {
    if name !in tick.rules then DroppedStep(c, name, tick)
    else if !tick.rules[name].enabled then DisabledStep(c, name, tick.rules[name], tick)
    else if !tick.condition(name).known then c
    else if tick.condition(name).active then RaisedStep(c, name, tick.rules[name], tick)
    else ClearedStep(c, name, tick.rules[name], tick)
  }

  /** A change of the interfaces in use is announced once; the first observation only sets the baseline. */
  function FailoverStep(c: Core, tick: Inputs): Core {
    var name := Config.FailoverEvent;
    if name !in tick.rules || !tick.rules[name].enabled || tick.interfaces.None? then c
    else
      var current := tick.interfaces.value;
      if !c.failoverReady then Persist(c.(failoverSet := current, failoverReady := true), tick.saves(name))
      else if current == c.failoverSet then c
      else
        var st := AlertState(true, tick.now, tick.now, UNSET, Interfaces(c.failoverSet, current));
        Persist(Emit(c.(failoverSet := current), Message(name, tick.rules[name].severity, Firing, st, tick)), tick.saves(name))
  }

  const CATALOG: seq<Name> := Config.CATALOG[..11]

  /** The catalog alerts other than the failover event, in order. */
  function AlertSteps(c: Core, names: seq<Name>, tick: Inputs): Core {
    if names == [] then c else AlertStep(AlertSteps(c, names[..|names| - 1], tick), names[|names| - 1], tick)
  }

  function TickStep(c: Core, tick: Inputs): Core { AlertSteps(FailoverStep(c, tick), CATALOG, tick) }

  function Restored(store: Option<Saved>, sent: seq<Notification>): Core {
    var saved := if store.Some? then store.value else NOTHING_SAVED;
    Core(saved.states, saved.failoverSet, saved.failoverReady, store, sent)
  }

  // ---------------------------------------------------------------- the engine

  class Engine {
    var states: map<Name, AlertState>
    var failoverSet: string
    var failoverReady: bool
    var store: Option<Saved>
    var sent: seq<Notification>

    ghost function Now(): Core
      reads this
    {
      Core(states, failoverSet, failoverReady, store, sent)
    }

    /** A new engine, restored from whatever the store holds. */
    constructor (store: Option<Saved>)
      ensures Now() == Restored(store, [])
    {
      this.store, sent := store, [];
      states, failoverSet, failoverReady := map[], "", false;
      if store.Some? {
        states, failoverSet, failoverReady := store.value.states, store.value.failoverSet, store.value.failoverReady;
      }
    }

    method PersistState(saves: bool)
      modifies this`store
      ensures Now() == Persist(old(Now()), saves)
    {
      var saved := map n | n in states && states[n].active :: states[n];
      if saves {
        store := Some(Saved(saved, failoverSet, failoverReady));
      }
    }

    method EmitMessage(name: Name, severity: Severity, phase: Phase, st: AlertState, tick: Inputs)
      modifies this`sent
      ensures Now() == Emit(old(Now()), Message(name, severity, phase, st, tick))
    {
      var duration := 0;
      if phase == Resolved {
        var started := st.subjectStart;
        if started == UNSET {
          started := st.firedAt;
        }
        duration := Max0(tick.now - started);
      }
      sent := sent + [Notification(name, severity, phase, tick.now / SECOND, st.detail, duration, tick.device)];
    }

    method EvaluateFailover(tick: Inputs)
      modifies this
      ensures Now() == FailoverStep(old(Now()), tick)
    {
      var name := Config.FailoverEvent;
      if name !in tick.rules || !tick.rules[name].enabled || tick.interfaces.None? {
        return;
      }
      var current := tick.interfaces.value;
      if !failoverReady {
        failoverSet, failoverReady := current, true;
        PersistState(tick.saves(name));
        return;
      }
      if current == failoverSet {
        return;
      }
      var st := AlertState(true, tick.now, tick.now, UNSET, Interfaces(failoverSet, current));
      failoverSet := current;
      EmitMessage(name, tick.rules[name].severity, Firing, st, tick);
      PersistState(tick.saves(name));
    }

    /** A known condition is active: fire once, and forget any clearing in progress. */
    method Raise(name: Name, rule: Rule, tick: Inputs)
      modifies this
      ensures Now() == RaisedStep(old(Now()), name, rule, tick)
    {
      hide Project;
      hide Message;
      var st := if name in states then states[name] else IDLE;
      states := states[name := st];
      if st.clearSince != UNSET {
        st := st.(clearSince := UNSET);
        states := states[name := st];
        PersistState(tick.saves(name));
      }
      if st.active {
        return;
      }
      var condition := tick.condition(name);
      st := st.(active := true, firedAt := tick.now, subjectStart := condition.started, detail := condition.detail);
      states := states[name := st];
      EmitMessage(name, rule.severity, Firing, st, tick);
      PersistState(tick.saves(name));
    }

    /** A known condition is inactive: resolve at once, or after it has been clear for the hold time. */
    method Clear(name: Name, rule: Rule, tick: Inputs)
      modifies this
      ensures Now() == ClearedStep(old(Now()), name, rule, tick)
    {
      hide Project;
      hide Message;
      var st := if name in states then states[name] else IDLE;
      states := states[name := st];
      if !st.active {
        return;
      }
      if rule.clearHold > 0 {
        if st.clearSince == UNSET {
          states := states[name := st.(clearSince := tick.now)];
          PersistState(tick.saves(name));
          return;
        }
        if tick.now - st.clearSince < rule.clearHold {
          return;
        }
      }
      EmitMessage(name, rule.severity, Resolved, st, tick);
      states := states[name := IDLE];
      PersistState(tick.saves(name));
    }

    method EvaluateAlert(name: Name, tick: Inputs)
      modifies this
      ensures Now() == AlertStep(old(Now()), name, tick)
    {
      hide Project;
      hide Message;
      if name !in tick.rules {
        if name in states {
          states := states - {name};
          PersistState(tick.saves(name));
        }
        return;
      }
      var rule := tick.rules[name];
      if !rule.enabled {
        if name in states && states[name].active {
          EmitMessage(name, rule.severity, Resolved, states[name], tick);
        }
        states := states - {name};
        PersistState(tick.saves(name));
        return;
      }
      var condition := tick.condition(name);
      if !condition.known {
        return;
      }
      if condition.active {
        Raise(name, rule, tick);
      } else {
        Clear(name, rule, tick);
      }
    }

    /** One tick: the failover event first, then every other alert of the catalog. */
    method Tick(tick: Inputs)
      modifies this
      ensures Now() == TickStep(old(Now()), tick)
    {
      hide AlertStep, FailoverStep;
      EvaluateFailover(tick);
      ghost var start := Now();
      var names := Config.CATALOG;
      assert CATALOG == names[..11] && names[11] == Config.FailoverEvent;
      for i := 0 to |names|
        invariant Now() == AlertSteps(start, CATALOG[..if i < 11 then i else 11], tick)
      {
        if names[i] == Config.FailoverEvent {
          continue;
        }
        assert CATALOG[..i + 1][..i] == CATALOG[..i];
        EvaluateAlert(names[i], tick);
      }
      assert CATALOG[..11] == CATALOG;
    }
  }
}
