/** Runs of the settings manager: requests and token changes, some of whose file writes fail. */
module ConfigRuns {
  import opened Basics
  import opened GoStrings
  import opened Uci
  import opened UciRewriting
  import opened UciTheorems
  import opened ConfigText
  import opened Config
  import opened ConfigNames
  import opened ConfigManager
  import opened ConfigChanges
  import opened ConfigAgreement

  /** What the manager holds: the text last written and the configuration in use. */
  datatype Held = Held(source: string, config: Config)

  datatype Event =
    | Change(request: Request, now: int, written: bool)
    | Regenerate(random: Option<seq<nat>>, written: bool)

  /** Thirty-two random bytes. */
  predicate IsKey(bytes: seq<nat>) { |bytes| == 32 && forall i :: 0 <= i < |bytes| ==> bytes[i] < 256 }

  predicate ValidEvent(e: Event) { e.Regenerate? && e.random.Some? ==> IsKey(e.random.value) }

  ghost predicate Agrees(codec: Codec, s: Held) { Load(codec, s.source) == Some(s.config) }

  predicate CatalogOnly(cfg: Config) { forall n :: n in cfg.alerts.rules ==> !n.Unlisted? }

  /** When the event is a request that takes effect, all the numbers it writes print. */
  predicate EventPrints(codec: Codec, s: Held, e: Event) {
    e.Change? && e.written && !Refused(s.config, e.request) ==> RequestPrints(codec, e.request, e.now)
  }

  function TokenUpdate(token: string): seq<Update> {
    [Update(MainPart.Key(), OptionOf(Token), token)]
  }

  /** One event: nothing happens when the request is refused, random bytes are missing or the write
      fails; otherwise text and configuration change together. */
  ghost predicate Step(codec: Codec, s: Held, e: Event, s': Held)
    requires ValidEvent(e)
  {
    match e
    case Change(u, now, written) =>
      if Refused(s.config, u) || !written then s' == s
      else
        && s'.config == Candidate(s.config, u, now)
        && exists order ::
             && (u.alerts.Some? ==> Visits(order, u.alerts.value.rules.Keys))
             && s'.source == Rewrite(s.source, ToUpdates(Changes(codec, u, now, order)))
    case Regenerate(random, written) =>
      if random.None? || !written then s' == s
      else
        var token := HexEncode(random.value);
        s' == Held(Rewrite(s.source, TokenUpdate(token)), s.config.(token := token))
  }

  class Manager {
    const codec: Codec
    var source: string
    var config: Config

    constructor (codec: Codec, source: string, config: Config)
      ensures this.codec == codec && this.source == source && this.config == config
    {
      this.codec, this.source, this.config := codec, source, config;
    }

    ghost function Now(): Held
      reads this
    {
      Held(source, config)
    }

    /** Applies a request; `written` says whether the atomic write of the file succeeds. */
    method Update(u: Request, now: int, written: bool) returns (done: bool)
      requires CatalogOnly(config)
      modifies this
      ensures Step(codec, old(Now()), Event.Change(u, now, written), Now()) && CatalogOnly(config)
      ensures done <==> written && !Refused(old(config), u)
    {
      var candidate, order := ApplyUpdate(codec, config, u, now);
      if candidate.None? {
        return false;
      }
      ghost var changes := Changes(codec, u, now, order);
      var rewritten := RewriteUCI(source, ToUpdates(candidate.value.1));
      if !written {
        return false;
      }
      source, config := rewritten, candidate.value.0;
      done := true;
    }

    /** Replaces the token by fresh random bytes in hexadecimal. */
    method RegenerateToken(random: Option<seq<nat>>, written: bool) returns (token: Option<string>)
      requires random.Some? ==> IsKey(random.value)
      modifies this
      ensures Step(codec, old(Now()), Regenerate(random, written), Now())
      ensures token == if random.Some? && written then Some(HexEncode(random.value)) else None
    {
      if random.None? {
        return None;
      }
      var text := HexEncode(random.value);
      var rewritten := RewriteUCI(source, TokenUpdate(text));
      if !written {
        return None;
      }
      source, config := rewritten, config.(token := text);
      token := Some(text);
    }
  }

  // ---------------------------------------------------------------- one step

  lemma RefusalKeepsNames(cfg: Config, u: Request)
    requires CatalogOnly(cfg) && !Refused(cfg, u) && u.alerts.Some?
    ensures forall n :: n in u.alerts.value.rules ==> !n.Unlisted?
  {
    forall n | n in u.alerts.value.rules ensures !n.Unlisted? {
      assert n in cfg.alerts.rules;
    }
  }

  lemma LoadedNames(codec: Codec, s: Held)
    requires Agrees(codec, s)
    ensures CatalogOnly(s.config) && Loadable(s.config) && Parse(s.source).Parsed?
  {
    hide LoadFrom;
    hide Loadable;
    LoadedIsLoadable(codec, ReaderOf(Parse(s.source).doc));
    forall n | n in s.config.alerts.rules ensures !n.Unlisted? {
      ListedName(n);
    }
  }

  lemma MainOneLine(v: MainUpdate, t: Setting)
    requires !BadMain(v) && (v.probeHosts.Some? ==> AreHosts(v.probeHosts.value))
    ensures WrittenMain(v, t).Some? ==> '\n' !in WrittenMain(v, t).value
  {
    IntOneLine(v.pollMap);
    IntOneLine(v.probeInterval);
    BoolOneLine(v.locationEnabled);
    if v.probeHosts.Some? {
      FieldsOfJoin(v.probeHosts.value);
    }
  }

  /** The probe hosts a request asks for can be written with spaces between them. */
  predicate HostsFit(u: Request) {
    u.main.Some? && u.main.value.probeHosts.Some? ==> AreHosts(u.main.value.probeHosts.value)
  }

  lemma LoadableHostsFit(cfg: Config, u: Request, now: int)
    requires Loadable(Candidate(cfg, u, now))
    ensures HostsFit(u)
  {
  }

  lemma TextsOneLine(codec: Codec, u: Request, now: int, cfg: Config, t: Setting)
    requires RequestPrints(codec, u, now) && !Refused(cfg, u) && HostsFit(u)
    ensures Written(codec, u, now, t).Some? ==> '\n' !in Written(codec, u, now, t).value
  {
    match PartOf(t)
    case MainPart =>
      if u.main.Some? {
        MainOneLine(u.main.value, t);
      }
    case HistoryPart =>
      if u.history.Some? {
        IntOneLine(u.history.value.minuteDays);
        IntOneLine(u.history.value.quarterDays);
      }
    case AlertsPart =>
      if u.alerts.Some? {
        AlertsOneLine(codec, u.alerts.value, cfg.alerts.rules, t);
      }
    case BatteryPart =>
      if u.battery.Some? {
        BoolOneLine(u.battery.value.enabled);
      }
  }

  lemma IntOneLine(x: Option<int>)
    requires x.Some? ==> x.value >= 0
    ensures IntText(x).Some? ==> '\n' !in IntText(x).value
  {
    if x.Some? {
      ItoaRead(x.value);
    }
  }

  lemma BoolOneLine(x: Option<bool>)
    ensures BoolText(x).Some? ==> '\n' !in BoolText(x).value
  {
  }

  lemma AlertsOneLine(codec: Codec, v: AlertsUpdate, rules: map<AlertName, Rule>, t: Setting)
    requires RulesPrint(codec, v.rules) && !BadAlerts(v, rules)
    ensures WrittenAlerts(codec, v, t).Some? ==> '\n' !in WrittenAlerts(codec, v, t).value
  {
    WrittenByOwner(codec, v.rules, t);
    if OwnerOf(t).Some? && OwnerOf(t).value in v.rules {
      var n := OwnerOf(t).value;
      var patch := v.rules[n];
      assert !BadRule(n, patch);
      IntOneLine(patch.holdSeconds);
      IntOneLine(patch.clearSeconds);
      BoolOneLine(patch.enabled);
    }
  }

  /** The changes of an accepted request can be written: the rewritten text is the intended one. */
  lemma ChangeWritten(codec: Codec, source: string, cfg: Config, u: Request, now: int, order: seq<AlertName>)
    requires RequestPrints(codec, u, now) && CatalogOnly(cfg) && Parse(source).Parsed? && !Refused(cfg, u) && HostsFit(u)
    requires u.alerts.Some? ==> Visits(order, u.alerts.value.rules.Keys)
    ensures var us, doc := ToUpdates(Changes(codec, u, now, order)), Parse(source).doc;
            WellOrdered(Changes(codec, u, now, order)) && Parse(Rewrite(source, us)) == Parsed(Expected(us, doc))
  {
    hide Refused, Rewrite, Parse, Written, Codec.Prints, Codec.Tells, Changes, ToUpdates, HostsFit;
    var doc := Parse(source).doc;
    var changes := Changes(codec, u, now, order);
    if u.alerts.Some? {
      RefusalKeepsNames(cfg, u);
    }
    ChangesOrdered(codec, u, now, order);
    forall i | 0 <= i < |changes| ensures '\n' !in changes[i].text {
      OrderedAt(changes, i);
      ChangesMeaning(codec, u, now, order, changes[i].setting);
      TextsOneLine(codec, u, now, cfg, changes[i].setting);
    }
    UpdatesProper(changes);
    UpdatesGrouped(changes, KeysOf(doc));
    RewriteCorrect(source, ToUpdates(changes));
  }

  /** The text after an accepted request loads to the new configuration if that is loadable. */
  lemma ChangeAgrees(codec: Codec, s: Held, u: Request, now: int, order: seq<AlertName>)
    requires RequestPrints(codec, u, now) && Agrees(codec, s) && !Refused(s.config, u)
    requires u.alerts.Some? ==> Visits(order, u.alerts.value.rules.Keys)
    requires Loadable(Candidate(s.config, u, now))
    ensures Load(codec, Rewrite(s.source, ToUpdates(Changes(codec, u, now, order)))) == Some(Candidate(s.config, u, now))
  {
    hide LoadFrom;
    hide Refused;
    hide Rewrite;
    hide Parse;
    hide Written;
    hide Codec.Prints, Codec.Tells;
    hide Changes;
    hide ToUpdates;
    LoadableHostsFit(s.config, u, now);
    hide Loadable, Candidate, HostsFit;
    var doc := Parse(s.source).doc;
    var changes := Changes(codec, u, now, order);
    var us := ToUpdates(changes);
    LoadedNames(codec, s);
    ChangeWritten(codec, s.source, s.config, u, now, order);
    var get, get' := ReaderOf(doc), ReaderOf(Expected(us, doc));
    forall t | Listed(t) ensures get'(t) == TextOr(Written(codec, u, now, t), get(t)) {
      ChangesMeaning(codec, u, now, order, t);
      UpdatesRead(changes, doc, t);
    }
    ReaderAgrees(codec, get, get', u, now, s.config);
  }

  lemma TokenRead(codec: Codec, get: Reader, get': Reader, cfg: Config, token: string)
    requires LoadFrom(codec, get) == Some(cfg) && token != ""
    requires forall t :: Listed(t) ==> get'(t) == if t == Token then token else get(t)
    ensures LoadFrom(codec, get') == Some(cfg.(token := token))
  {
    hide LoadFrom;
    hide LoadHistory;
    hide LoadRules;
    hide LoadBattery;
    hide ReadInt;
    hide ReadBool;
    hide ReadHosts;
    hide Codec.Prints, Codec.Tells;
    ConfigReadLoad(codec, get, cfg);
    ConfigReadLoad(codec, get', cfg.(token := token));
    SameHistory(get, get');
    SameRules(codec, get, get', cfg.alerts.rules);
    SameBattery(codec, get, get');
  }

  /** A fresh token leaves text and configuration in agreement. */
  lemma TokenAgrees(codec: Codec, s: Held, bytes: seq<nat>)
    requires Agrees(codec, s) && IsKey(bytes)
    ensures var token := HexEncode(bytes);
            Agrees(codec, Held(Rewrite(s.source, TokenUpdate(token)), s.config.(token := token)))
  {
    hide LoadFrom;
    hide Rewrite;
    hide Parse;
    hide Loadable;
    hide Codec.Prints, Codec.Tells;
    var token := HexEncode(bytes);
    var doc := Parse(s.source).doc;
    var change := ConfigManager.Change.Change(Token, token);
    var changes := [change];
    LoadedNames(codec, s);
    HexText(bytes);
    AddOrdered([], Token, Some(token));
    assert Add([], Token, Some(token)) == changes;
    assert ToUpdates(changes) == TokenUpdate(token);
    UpdatesProper(changes);
    UpdatesGrouped(changes, KeysOf(doc));
    RewriteCorrect(s.source, ToUpdates(changes));
    var get, get' := ReaderOf(doc), ReaderOf(Expected(ToUpdates(changes), doc));
    forall t | Listed(t) ensures get'(t) == if t == Token then token else get(t) {
      AddLookup([], Token, Some(token), t);
      UpdatesRead(changes, doc, t);
    }
    TokenRead(codec, get, get', s.config, token);
  }

  /** From agreement, one event leads to agreement exactly when the configuration it leads to is one
      the loader accepts. */
  lemma StepAgrees(codec: Codec, s: Held, e: Event, s': Held)
    requires EventPrints(codec, s, e) && Agrees(codec, s) && ValidEvent(e) && Step(codec, s, e, s')
    ensures Agrees(codec, s') <==> Loadable(s'.config)
  {
    hide LoadFrom;
    hide Loadable;
    hide Rewrite;
    hide Refused;
    hide Candidate;
    hide Changes;
    hide Codec.Prints, Codec.Tells;
    LoadedNames(codec, s);
    if Agrees(codec, s') {
      LoadedNames(codec, s');
    } else if Loadable(s'.config) {
      match e
      case Change(u, now, written) =>
        if !Refused(s.config, u) && written {
          var order :|
            && (u.alerts.Some? ==> Visits(order, u.alerts.value.rules.Keys))
            && s'.source == Rewrite(s.source, ToUpdates(Changes(codec, u, now, order)));
          ChangeAgrees(codec, s, u, now, order);
        }
      case Regenerate(random, written) =>
        if random.Some? && written {
          TokenAgrees(codec, s, random.value);
        }
    }
  }

  predicate AtMostSeconds(x: Option<int>) { x.Some? ==> x.value <= YEAR_SECONDS }

  predicate SecondsFit(x: Option<int>) { x.Some? ==> InSeconds(x.value) }

  predicate RealFits(x: Option<real>, max: real) { x.Some? ==> x.value <= max }

  /** Where the loader is stricter than the manager: what a request must not ask for if its text is to load. */
  predicate FitsLoader(u: Request) {
    && HostsFit(u)
    && (u.main.Some? ==> AtMostSeconds(u.main.value.pollMap) && AtMostSeconds(u.main.value.probeInterval))
    && (u.history.Some? ==> (u.history.value.minuteDays.Some? ==> u.history.value.minuteDays.value <= 3650)
                            && (u.history.value.quarterDays.Some? ==> u.history.value.quarterDays.value <= 3650))
    && (u.alerts.Some? ==> RulesFit(u.alerts.value.rules))
  }

  predicate RulesFit(rules: map<AlertName, RuleUpdate>) {
    && (OutageStarted in rules ==> SecondsFit(rules[OutageStarted].holdSeconds))
    && (DishUnreachable in rules ==> SecondsFit(rules[DishUnreachable].holdSeconds))
    && (PathDegraded in rules ==> SecondsFit(rules[PathDegraded].clearSeconds)
                                  && RealFits(rules[PathDegraded].threshold, 1.0) && RealFits(rules[PathDegraded].threshold2, 60000.0))
    && (ObstructionHigh in rules ==> RealFits(rules[ObstructionHigh].threshold, 1.0))
  }

  lemma RulesFitExact(rules: map<AlertName, Rule>, patches: map<AlertName, RuleUpdate>)
    requires RulesLoadable(rules) && forall n :: n in patches ==> n in rules && !BadRule(n, patches[n])
    ensures RulesLoadable(PatchedRules(rules, patches)) <==> RulesFit(patches)
  {
  }

  /** An accepted request leads to a configuration that the loader accepts exactly when it fits. */
  lemma FitsExact(cfg: Config, u: Request, now: int)
    requires Loadable(cfg) && !Refused(cfg, u)
    ensures Loadable(Candidate(cfg, u, now)) <==> FitsLoader(u)
  {
    if u.alerts.Some? {
      RulesFitExact(cfg.alerts.rules, u.alerts.value.rules);
    }
    hide RulesLoadable, RulesFit, BadRule, PatchedRules, AreHosts;
  }

  /** Whether a rule has the levels a patch names. */
  predicate HasLevels(name: AlertName, patch: RuleUpdate) {
    && (patch.threshold.Some? ==> name.PathDegraded? || name.ObstructionHigh?) && (patch.threshold2.Some? ==> name.PathDegraded?)
    && (patch.holdSeconds.Some? ==> name.OutageStarted? || name.DishUnreachable?)
    && (patch.clearSeconds.Some? ==> name.PathDegraded?)
  }

  /** The request asks only for what can be changed while the daemon runs, of rules there are, on one line. */
  predicate Changeable(cfg: Config, u: Request) {
    && (u.main.Some? ==> !u.main.value.restartManaged && u.main.value.probeHosts != Some([]))
    && (u.history.Some? ==> !u.history.value.restartManaged)
    && (u.alerts.Some? ==>
          && (u.alerts.value.webhookUrl.Some? ==> '\r' !in u.alerts.value.webhookUrl.value && '\n' !in u.alerts.value.webhookUrl.value)
          && (u.alerts.value.ntfyUrl.Some? ==> '\r' !in u.alerts.value.ntfyUrl.value && '\n' !in u.alerts.value.ntfyUrl.value)
          && forall n :: n in u.alerts.value.rules ==> n in cfg.alerts.rules && HasLevels(n, u.alerts.value.rules[n]))
  }

  /** Everything changeable that leads to a configuration the loader accepts is accepted. */
  lemma LoadableAccepted(cfg: Config, u: Request, now: int)
    requires Changeable(cfg, u) && Loadable(Candidate(cfg, u, now))
    ensures !Refused(cfg, u)
  {
    if u.alerts.Some? {
      forall n | n in u.alerts.value.rules ensures !BadRule(n, u.alerts.value.rules[n]) {
        assert n in cfg.alerts.rules && HasLevels(n, u.alerts.value.rules[n]);
      }
    }
    hide AreHosts;
  }

  /** And nothing else: what is accepted is changeable. */
  lemma AcceptedChangeable(cfg: Config, u: Request)
    requires !Refused(cfg, u)
    ensures Changeable(cfg, u)
  {
    if u.alerts.Some? {
      forall n | n in u.alerts.value.rules ensures n in cfg.alerts.rules && HasLevels(n, u.alerts.value.rules[n]) {
        assert !BadRule(n, u.alerts.value.rules[n]);
      }
    }
  }

  /** Told before the request is made: its text will load to the configuration in memory exactly when it fits. */
  lemma RequestAgrees(codec: Codec, s: Held, u: Request, now: int, s': Held)
    requires RequestPrints(codec, u, now) && Agrees(codec, s) && !Refused(s.config, u)
    requires Step(codec, s, Event.Change(u, now, true), s')
    ensures Agrees(codec, s') <==> FitsLoader(u)
  {
    hide Agrees, Loadable, Refused, RequestPrints, FitsLoader, Rewrite, Changes, Visits;
    LoadedNames(codec, s);
    FitsExact(s.config, u, now);
    hide Candidate;
    StepAgrees(codec, s, Event.Change(u, now, true), s');
  }

  // ---------------------------------------------------------------- whole runs

  ghost predicate IsRun(codec: Codec, states: seq<Held>, events: seq<Event>) {
    && |states| == |events| + 1
    && forall k :: 0 <= k < |events| ==> ValidEvent(events[k]) && Step(codec, states[k], events[k], states[k + 1])
  }

  /** Over any run that starts in agreement, text and memory agree after every event if and only if
      every configuration reached is loadable. */
  lemma RunAgrees(codec: Codec, states: seq<Held>, events: seq<Event>)
    requires IsRun(codec, states, events) && Agrees(codec, states[0])
    requires forall k :: 0 <= k < |events| ==> EventPrints(codec, states[k], events[k])
    ensures (forall k :: 0 <= k < |states| ==> Agrees(codec, states[k])) <==>
            (forall k :: 0 <= k < |states| ==> Loadable(states[k].config))
  {
    hide Agrees;
    hide Loadable;
    hide Step;
    hide Codec.Prints, Codec.Tells;
    if forall k :: 0 <= k < |states| ==> Loadable(states[k].config) {
      var k := 0;
      while k < |events|
        invariant k <= |events| && forall j :: 0 <= j <= k ==> Agrees(codec, states[j])
      {
        StepAgrees(codec, states[k], events[k], states[k + 1]);
        k := k + 1;
      }
    } else if forall k :: 0 <= k < |states| ==> Agrees(codec, states[k]) {
      forall k | 0 <= k < |states| ensures Loadable(states[k].config) {
        LoadedNames(codec, states[k]);
      }
    }
  }

  /** The request that sets only one rule's hold time. */
  function HoldRequest(name: AlertName, seconds: int): Request {
    Request(None, None,
            Some(AlertsUpdate(None, None, map[name := RuleUpdate(None, None, None, Some(seconds), None)])), None)
  }

  /** A hold time of zero is accepted, but the text it leaves no longer loads: the loader wants at least
      one second. */
  lemma ZeroHoldDisagrees(codec: Codec, s: Held, now: int, s': Held)
    requires Agrees(codec, s)
    requires Step(codec, s, Event.Change(HoldRequest(OutageStarted, 0), now, true), s')
    ensures !Refused(s.config, HoldRequest(OutageStarted, 0)) && !Agrees(codec, s')
  {
    hide LoadFrom;
    hide Rewrite;
    hide Changes;
    hide Codec.Prints, Codec.Tells;
    var u := HoldRequest(OutageStarted, 0);
    LoadedNames(codec, s);
    assert u.alerts.value.rules.Keys == {OutageStarted};
    assert !Refused(s.config, u);
    assert s'.config.alerts.rules[OutageStarted].hold == 0;
    StepAgrees(codec, s, Event.Change(u, now, true), s');
  }

  /** The request that sets only the battery's charge. */
  function ChargeRequest(charge: real): Request {
    Request(None, None, None, Some(BatteryUpdate(None, None, Some(charge), None, None)))
  }

  /** There are formattings for which numbers print: with one of them, setting the charge to any number of
      percent with three decimals in an empty file leaves text and configuration in agreement. */
  lemma ChargeAgrees(n: nat, now: nat)
    requires n <= 100000
    ensures var codec, u := Thousandths(), ChargeRequest(n as real / 1000.0);
            var loaded := Load(codec, "");
            loaded.Some? && !Refused(loaded.value, u) && RequestPrints(codec, u, now)
            && Load(codec, Rewrite("", ToUpdates(Changes(codec, u, now, [])))) == Some(Candidate(loaded.value, u, now))
  {
    hide Load;
    hide Rewrite;
    hide Changes;
    hide Thousandths;
    hide Refused;
    hide RequestPrints;
    hide Loadable;
    hide Candidate;
    hide Codec.Prints;
    hide Codec.Tells;
    var codec, x := Thousandths(), n as real / 1000.0;
    EmptyLoads(codec);
    ThousandthsPrint(n, now);
    var held := Held("", Load(codec, "").value);
    LoadedNames(codec, held);
    ChargeFits(codec, held.config, x, now);
    ChangeAgrees(codec, held, ChargeRequest(x), now, []);
  }

  lemma ChargeFits(codec: Codec, cfg: Config, x: real, now: int)
    requires Loadable(cfg) && 0.0 <= x <= 100.0 && codec.Prints(x) && codec.Tells(now)
    ensures var u := ChargeRequest(x);
            !Refused(cfg, u) && RequestPrints(codec, u, now) && Loadable(Candidate(cfg, u, now))
  {
    hide RulesLoadable;
    hide AreHosts;
    hide Codec.Prints;
    hide Codec.Tells;
    assert x * 1.0 == x;
  }

  lemma EmptyLoads(codec: Codec)
    ensures Load(codec, "").Some?
  {
    assert SplitLines("") == [""];
    assert Classify("") == Blank;
    assert Parse("") == Parsed([]);
    assert forall t :: ReaderOf([])(t) == "";
  }
}
