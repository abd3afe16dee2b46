/** The settings manager: it keeps a configuration in memory and its text in a file, and changes both
    together. The theorem is that the text always loads back to the configuration in memory, exactly as
    long as that configuration is one the loader accepts. */
module ConfigManager {
  import opened Basics
  import opened Uci
  import opened ConfigText
  import opened Config
  import opened ConfigNames

  // ---------------------------------------------------------------- requests

  datatype MainUpdate = MainUpdate(
    restartManaged: bool, pollMap: Option<int>, probeInterval: Option<int>,
    probeHosts: Option<seq<string>>, locationEnabled: Option<bool>)

  datatype HistoryUpdate = HistoryUpdate(restartManaged: bool, minuteDays: Option<int>, quarterDays: Option<int>)

  datatype RuleUpdate = RuleUpdate(
    enabled: Option<bool>, threshold: Option<real>, threshold2: Option<real>,
    holdSeconds: Option<int>, clearSeconds: Option<int>)

  datatype AlertsUpdate = AlertsUpdate(
    webhookUrl: Option<string>, ntfyUrl: Option<string>, rules: map<AlertName, RuleUpdate>)

  datatype BatteryUpdate = BatteryUpdate(
    enabled: Option<bool>, capacity: Option<real>, charge: Option<real>,
    reserve: Option<real>, efficiency: Option<real>)

  datatype Request = Request(
    main: Option<MainUpdate>, history: Option<HistoryUpdate>, alerts: Option<AlertsUpdate>,
    battery: Option<BatteryUpdate>)

  datatype Change = Change(setting: Setting, text: string)

  function ToUpdate(c: Change): Update { Update(PartOf(c.setting).Key(), OptionOf(c.setting), c.text) }

  function ToUpdates(changes: seq<Change>): seq<Update> {
    seq(|changes|, i requires 0 <= i < |changes| => ToUpdate(changes[i]))
  }

  // ---------------------------------------------------------------- which settings a rule has

  function ThresholdSetting(name: AlertName, second: bool): Option<Setting> {
    match name
    case PathDegraded => Some(if second then PathRtt else PathLoss)
    case ObstructionHigh => if second then None else Some(Obstruction)
    case _ => None
  }

  function HoldSetting(name: AlertName, clear: bool): Option<Setting> {
    match name
    case PathDegraded => if clear then Some(PathClear) else None
    case OutageStarted => if clear then None else Some(OutageHold)
    case DishUnreachable => if clear then None else Some(UnreachableHold)
    case _ => None
  }

  // ---------------------------------------------------------------- what a request means

  predicate BadRule(name: AlertName, patch: RuleUpdate) {
    || (patch.threshold.Some? && (patch.threshold.value < 0.0 || ThresholdSetting(name, false).None?))
    || (patch.threshold2.Some? && (patch.threshold2.value < 0.0 || ThresholdSetting(name, true).None?))
    || (patch.holdSeconds.Some? && (patch.holdSeconds.value < 0 || HoldSetting(name, false).None?))
    || (patch.clearSeconds.Some? && (patch.clearSeconds.value < 0 || HoldSetting(name, true).None?))
  }

  predicate BadMain(u: MainUpdate) {
    || u.restartManaged
    || (u.pollMap.Some? && u.pollMap.value <= 0)
    || (u.probeInterval.Some? && u.probeInterval.value <= 0)
    || (u.probeHosts.Some? && u.probeHosts.value == [])
  }

  predicate BadHistory(u: HistoryUpdate) {
    || u.restartManaged
    || (u.minuteDays.Some? && u.minuteDays.value < 1)
    || (u.quarterDays.Some? && u.quarterDays.value < 1)
  }

  predicate HasLineBreak(s: string) { '\r' in s || '\n' in s }

  predicate BadAlerts(u: AlertsUpdate, rules: map<AlertName, Rule>) {
    || (u.webhookUrl.Some? && HasLineBreak(u.webhookUrl.value))
    || (u.ntfyUrl.Some? && HasLineBreak(u.ntfyUrl.value))
    || exists n :: n in u.rules && (n !in rules || BadRule(n, u.rules[n]))
  }

  predicate Between(x: Option<real>, low: real, high: real) { x.Some? ==> low <= x.value <= high }

  predicate BadBattery(u: BatteryUpdate) {
    || (u.capacity.Some? && (u.capacity.value <= 0.0 || u.capacity.value > 100000.0))
    || !Between(u.charge, 0.0, 100.0) || !Between(u.reserve, 0.0, 95.0) || !Between(u.efficiency, 1.0, 100.0)
  }

  predicate Refused(cfg: Config, u: Request) {
    || (u.main.Some? && BadMain(u.main.value))
    || (u.history.Some? && BadHistory(u.history.value))
    || (u.alerts.Some? && BadAlerts(u.alerts.value, cfg.alerts.rules))
    || (u.battery.Some? && BadBattery(u.battery.value))
  }

  function Or<T>(update: Option<T>, current: T): T { if update.Some? then update.value else current }

  function PatchedRule(rule: Rule, patch: RuleUpdate): Rule {
    Rule(Or(patch.enabled, rule.enabled), Or(patch.threshold, rule.threshold), Or(patch.threshold2, rule.threshold2),
         Or(patch.holdSeconds, rule.hold), Or(patch.clearSeconds, rule.clearHold))
  }

  function PatchedRules(rules: map<AlertName, Rule>, patches: map<AlertName, RuleUpdate>): map<AlertName, Rule> {
    map n | n in rules :: if n in patches then PatchedRule(rules[n], patches[n]) else rules[n]
  }

  /** The configuration after a request, as if it were applied to each field at once. */
  function Candidate(cfg: Config, u: Request, now: int): Config {
    (if u.main.Some? then CandidateMain(cfg, u.main.value) else cfg).(
      history := if u.history.None? then cfg.history else CandidateHistory(cfg.history, u.history.value),
      alerts := if u.alerts.None? then cfg.alerts else CandidateAlerts(cfg.alerts, u.alerts.value),
      battery := if u.battery.None? then cfg.battery else CandidateBattery(cfg.battery, u.battery.value, now))
  }

  function CandidateMain(cfg: Config, u: MainUpdate): Config {
    cfg.(
      pollMap := Or(u.pollMap, cfg.pollMap), probeInterval := Or(u.probeInterval, cfg.probeInterval),
      probeHosts := Or(u.probeHosts, cfg.probeHosts), locationEnabled := Or(u.locationEnabled, cfg.locationEnabled))
  }

  function CandidateHistory(h: History, u: HistoryUpdate): History {
    h.(minuteDays := Or(u.minuteDays, h.minuteDays), quarterDays := Or(u.quarterDays, h.quarterDays))
  }

  function CandidateAlerts(a: Alerts, u: AlertsUpdate): Alerts {
    Alerts(Or(u.webhookUrl, a.webhookUrl), Or(u.ntfyUrl, a.ntfyUrl), PatchedRules(a.rules, u.rules))
  }

  function CandidateBattery(b: Battery, u: BatteryUpdate, now: int): Battery {
    Battery(Or(u.enabled, b.enabled), Or(u.capacity, b.capacity), Or(u.charge, b.charge), Or(u.reserve, b.reserve),
            Or(u.efficiency, b.efficiency), if u.charge.Some? then now else b.chargedAt)
  }

  // ---------------------------------------------------------------- what a request writes

  function IntText(x: Option<int>): Option<string> { match x case Some(n) => Some(Itoa(n)) case None => None }

  function BoolText(x: Option<bool>): Option<string> { match x case Some(b) => Some(FormatBool(b)) case None => None }

  function HostsText(x: Option<seq<string>>): Option<string> { match x case Some(hosts) => Some(JoinSpaces(hosts)) case None => None }

  function TimeText(codec: Codec, set_: bool, t: int): Option<string> { if set_ then Some(codec.formatTime(t)) else None }

  function RealText(codec: Codec, x: Option<real>, scale: real): Option<string> {
    match x case Some(r) => Some(codec.formatFloat(r * scale)) case None => None
  }

  /** Every number and time that a request writes has a text that reads back. */
  predicate RealPrints(codec: Codec, x: Option<real>, scale: real) { x.Some? ==> codec.Prints(x.value * scale) }

  predicate RulesPrint(codec: Codec, rules: map<AlertName, RuleUpdate>) {
    && (PathDegraded in rules ==>
          RealPrints(codec, rules[PathDegraded].threshold, 100.0) && RealPrints(codec, rules[PathDegraded].threshold2, 1.0))
    && (ObstructionHigh in rules ==> RealPrints(codec, rules[ObstructionHigh].threshold, 100.0))
  }

  predicate BatteryPrints(codec: Codec, u: BatteryUpdate, now: int) {
    && RealPrints(codec, u.capacity, 1.0) && RealPrints(codec, u.charge, 1.0) && RealPrints(codec, u.reserve, 1.0)
    && RealPrints(codec, u.efficiency, 1.0) && (u.charge.Some? ==> codec.Tells(now))
  }

  predicate RequestPrints(codec: Codec, u: Request, now: int) {
    && (u.alerts.Some? ==> RulesPrint(codec, u.alerts.value.rules))
    && (u.battery.Some? ==> BatteryPrints(codec, u.battery.value, now))
  }

  function WrittenMain(u: MainUpdate, s: Setting): Option<string> {
    match s
    case PollMap => IntText(u.pollMap)
    case ProbeInterval => IntText(u.probeInterval)
    case ProbeHosts => HostsText(u.probeHosts)
    case LocationEnabled => BoolText(u.locationEnabled)
    case _ => None
  }

  function WrittenHistory(u: HistoryUpdate, s: Setting): Option<string> {
    match s
    case MinuteDays => IntText(u.minuteDays)
    case QuarterDays => IntText(u.quarterDays)
    case _ => None
  }

  function WrittenRules(codec: Codec, rules: map<AlertName, RuleUpdate>, s: Setting): Option<string> {
    match s
    case RuleEnabled(n) => if n in rules then BoolText(rules[n].enabled) else None
    case PathLoss => if PathDegraded in rules then RealText(codec, rules[PathDegraded].threshold, 100.0) else None
    case PathRtt => if PathDegraded in rules then RealText(codec, rules[PathDegraded].threshold2, 1.0) else None
    case PathClear => if PathDegraded in rules then IntText(rules[PathDegraded].clearSeconds) else None
    case Obstruction => if ObstructionHigh in rules then RealText(codec, rules[ObstructionHigh].threshold, 100.0) else None
    case OutageHold => if OutageStarted in rules then IntText(rules[OutageStarted].holdSeconds) else None
    case UnreachableHold => if DishUnreachable in rules then IntText(rules[DishUnreachable].holdSeconds) else None
    case _ => None
  }

  function WrittenAlerts(codec: Codec, u: AlertsUpdate, s: Setting): Option<string> {
    match s
    case WebhookUrl => u.webhookUrl
    case NtfyUrl => u.ntfyUrl
    case _ => WrittenRules(codec, u.rules, s)
  }

  function WrittenBattery(codec: Codec, u: BatteryUpdate, now: int, s: Setting): Option<string> {
    match s
    case BatteryEnabled => BoolText(u.enabled)
    case Capacity => RealText(codec, u.capacity, 1.0)
    case Charge => RealText(codec, u.charge, 1.0)
    case ChargedAt => TimeText(codec, u.charge.Some?, now)
    case Reserve => RealText(codec, u.reserve, 1.0)
    case Efficiency => RealText(codec, u.efficiency, 1.0)
    case _ => None
  }

  /** The text a request gives a setting, if any. */
  function Written(codec: Codec, u: Request, now: int, s: Setting): Option<string> {
    match PartOf(s)
    case MainPart => if u.main.Some? then WrittenMain(u.main.value, s) else None
    case HistoryPart => if u.history.Some? then WrittenHistory(u.history.value, s) else None
    case AlertsPart => if u.alerts.Some? then WrittenAlerts(codec, u.alerts.value, s) else None
    case BatteryPart => if u.battery.Some? then WrittenBattery(codec, u.battery.value, now, s) else None
  }

  // ---------------------------------------------------------------- the change list

  /** The text a change list gives a setting. */
  function Lookup(changes: seq<Change>, s: Setting): Option<string> {
    if changes == [] then None
    else if Last(changes).setting == s then Some(Last(changes).text) else Lookup(Front(changes), s)
  }

  function TopRank(changes: seq<Change>): nat {
    if changes == [] then 0 else PartOf(Last(changes).setting).Rank()
  }

  /** No setting twice, the sections one after the other, and catalog names only. */
  predicate WellOrdered(changes: seq<Change>) {
    changes == [] ||
    (&& WellOrdered(Front(changes))
     && Listed(Last(changes).setting)
     && Lookup(Front(changes), Last(changes).setting).None?
     && TopRank(Front(changes)) <= TopRank(changes))
  }

  predicate UpTo(changes: seq<Change>, p: Part) { TopRank(changes) <= p.Rank() }

  /** Adds a change to the list when the request carries the setting. */
  function Add(changes: seq<Change>, s: Setting, text: Option<string>): seq<Change> {
    match text case Some(t) => changes + [Change(s, t)] case None => changes
  }

  lemma AddLookup(changes: seq<Change>, s: Setting, text: Option<string>, t: Setting)
    ensures Lookup(Add(changes, s, text), t) == if t == s && text.Some? then text else Lookup(changes, t)
  {
    if text.Some? {
      assert Front(changes + [Change(s, text.value)]) == changes;
    }
  }

  lemma AddOrdered(changes: seq<Change>, s: Setting, text: Option<string>)
    requires WellOrdered(changes) && UpTo(changes, PartOf(s)) && Listed(s) && Lookup(changes, s).None?
    ensures WellOrdered(Add(changes, s, text)) && UpTo(Add(changes, s, text), PartOf(s))
  {
    if text.Some? {
      assert Front(changes + [Change(s, text.value)]) == changes;
    }
  }

  // ---------------------------------------------------------------- applying a request

  function MainChanges(changes: seq<Change>, u: MainUpdate): seq<Change> {
    var a := Add(changes, PollMap, IntText(u.pollMap));
    var b := Add(a, ProbeInterval, IntText(u.probeInterval));
    var c := Add(b, ProbeHosts, HostsText(u.probeHosts));
    Add(c, LocationEnabled, BoolText(u.locationEnabled))
  }

  function HistoryChanges(changes: seq<Change>, u: HistoryUpdate): seq<Change> {
    Add(Add(changes, MinuteDays, IntText(u.minuteDays)), QuarterDays, IntText(u.quarterDays))
  }

  function UrlChanges(changes: seq<Change>, u: AlertsUpdate): seq<Change> {
    Add(Add(changes, WebhookUrl, u.webhookUrl), NtfyUrl, u.ntfyUrl)
  }

  function AddMaybe(changes: seq<Change>, s: Option<Setting>, text: Option<string>): seq<Change> {
    match s case Some(t) => Add(changes, t, text) case None => changes
  }

  function RuleChanges(codec: Codec, changes: seq<Change>, name: AlertName, patch: RuleUpdate): seq<Change> {
    var loss, rtt := ThresholdSetting(name, false), ThresholdSetting(name, true);
    var a := Add(changes, RuleEnabled(name), BoolText(patch.enabled));
    var b := AddMaybe(a, loss, RealText(codec, patch.threshold, 100.0));
    var c := AddMaybe(b, rtt, RealText(codec, patch.threshold2, 1.0));
    var d := AddMaybe(c, HoldSetting(name, false), IntText(patch.holdSeconds));
    AddMaybe(d, HoldSetting(name, true), IntText(patch.clearSeconds))
  }

  function BatteryChanges(codec: Codec, changes: seq<Change>, u: BatteryUpdate, now: int): seq<Change> {
    var a := Add(changes, BatteryEnabled, BoolText(u.enabled));
    var b := Add(a, Capacity, RealText(codec, u.capacity, 1.0));
    var c := Add(b, Charge, RealText(codec, u.charge, 1.0));
    var d := Add(c, ChargedAt, TimeText(codec, u.charge.Some?, now));
    var e := Add(d, Reserve, RealText(codec, u.reserve, 1.0));
    Add(e, Efficiency, RealText(codec, u.efficiency, 1.0))
  }

  method ApplyMain(cfg: Config, u: MainUpdate, changes: seq<Change>) returns (r: Option<(Config, seq<Change>)>)
    ensures r == if BadMain(u) then None else Some((CandidateMain(cfg, u), MainChanges(changes, u)))
  {
    var c, out := cfg, changes;
    if u.restartManaged {
      return None;
    }
    if u.pollMap.Some? && u.pollMap.value <= 0 {
      return None;
    }
    c := c.(pollMap := Or(u.pollMap, c.pollMap));
    out := Add(out, PollMap, IntText(u.pollMap));
    if u.probeInterval.Some? && u.probeInterval.value <= 0 {
      return None;
    }
    c := c.(probeInterval := Or(u.probeInterval, c.probeInterval));
    out := Add(out, ProbeInterval, IntText(u.probeInterval));
    if u.probeHosts.Some? && |u.probeHosts.value| == 0 {
      return None;
    }
    c := c.(probeHosts := Or(u.probeHosts, c.probeHosts));
    out := Add(out, ProbeHosts, HostsText(u.probeHosts));
    c := c.(locationEnabled := Or(u.locationEnabled, c.locationEnabled));
    out := Add(out, LocationEnabled, BoolText(u.locationEnabled));
    r := Some((c, out));
  }

  method ApplyHistory(h: History, u: HistoryUpdate, changes: seq<Change>) returns (r: Option<(History, seq<Change>)>)
    ensures r == if BadHistory(u) then None else Some((CandidateHistory(h, u), HistoryChanges(changes, u)))
  {
    var c, out := h, changes;
    if u.restartManaged {
      return None;
    }
    if u.minuteDays.Some? && u.minuteDays.value < 1 {
      return None;
    }
    c := c.(minuteDays := Or(u.minuteDays, c.minuteDays));
    out := Add(out, MinuteDays, IntText(u.minuteDays));
    if u.quarterDays.Some? && u.quarterDays.value < 1 {
      return None;
    }
    c := c.(quarterDays := Or(u.quarterDays, c.quarterDays));
    out := Add(out, QuarterDays, IntText(u.quarterDays));
    r := Some((c, out));
  }

  method ApplyBattery(codec: Codec, b: Battery, u: BatteryUpdate, now: int, changes: seq<Change>)
    returns (r: Option<(Battery, seq<Change>)>)
    ensures r == if BadBattery(u) then None else Some((CandidateBattery(b, u, now), BatteryChanges(codec, changes, u, now)))
  {
    var c, out := b, changes;
    c := c.(enabled := Or(u.enabled, c.enabled));
    out := Add(out, BatteryEnabled, BoolText(u.enabled));
    if u.capacity.Some? && (u.capacity.value <= 0.0 || u.capacity.value > 100000.0) {
      return None;
    }
    c := c.(capacity := Or(u.capacity, c.capacity));
    out := Add(out, Capacity, RealText(codec, u.capacity, 1.0));
    if !Between(u.charge, 0.0, 100.0) {
      return None;
    }
    c := c.(charge := Or(u.charge, c.charge), chargedAt := if u.charge.Some? then now else c.chargedAt);
    out := Add(out, Charge, RealText(codec, u.charge, 1.0));
    out := Add(out, ChargedAt, TimeText(codec, u.charge.Some?, now));
    if !Between(u.reserve, 0.0, 95.0) {
      return None;
    }
    c := c.(reserve := Or(u.reserve, c.reserve));
    out := Add(out, Reserve, RealText(codec, u.reserve, 1.0));
    if !Between(u.efficiency, 1.0, 100.0) {
      return None;
    }
    c := c.(efficiency := Or(u.efficiency, c.efficiency));
    out := Add(out, Efficiency, RealText(codec, u.efficiency, 1.0));
    r := Some((c, out));
  }

  method ApplyRule(codec: Codec, name: AlertName, rule: Rule, patch: RuleUpdate, changes: seq<Change>)
    returns (r: Option<(Rule, seq<Change>)>)
    ensures r == if BadRule(name, patch) then None else Some((PatchedRule(rule, patch), RuleChanges(codec, changes, name, patch)))
  {
    var c := rule.(enabled := Or(patch.enabled, rule.enabled));
    var out := Add(changes, RuleEnabled(name), BoolText(patch.enabled));
    var loss := ThresholdSetting(name, false);
    if patch.threshold.Some? && (patch.threshold.value < 0.0 || loss.None?) {
      return None;
    }
    c := c.(threshold := Or(patch.threshold, c.threshold));
    out := AddMaybe(out, loss, RealText(codec, patch.threshold, 100.0));
    var rtt := ThresholdSetting(name, true);
    if patch.threshold2.Some? && (patch.threshold2.value < 0.0 || rtt.None?) {
      return None;
    }
    c := c.(threshold2 := Or(patch.threshold2, c.threshold2));
    out := AddMaybe(out, rtt, RealText(codec, patch.threshold2, 1.0));
    var hold := HoldSetting(name, false);
    if patch.holdSeconds.Some? && (patch.holdSeconds.value < 0 || hold.None?) {
      return None;
    }
    c := c.(hold := Or(patch.holdSeconds, c.hold));
    out := AddMaybe(out, hold, IntText(patch.holdSeconds));
    var clear := HoldSetting(name, true);
    if patch.clearSeconds.Some? && (patch.clearSeconds.value < 0 || clear.None?) {
      return None;
    }
    c := c.(clearHold := Or(patch.clearSeconds, c.clearHold));
    out := AddMaybe(out, clear, IntText(patch.clearSeconds));
    r := Some((c, out));
  }

  function Restrict(patches: map<AlertName, RuleUpdate>, names: set<AlertName>): map<AlertName, RuleUpdate> {
    map n | n in patches && n in names :: patches[n]
  }

  /** The changes of several rules, in the order in which the rules were visited. */
  function RulesChanges(codec: Codec, changes: seq<Change>, patches: map<AlertName, RuleUpdate>, order: seq<AlertName>): seq<Change>
    requires forall i :: 0 <= i < |order| ==> order[i] in patches
  {
    if order == [] then changes
    else RuleChanges(codec, RulesChanges(codec, changes, patches, Front(order)), Last(order), patches[Last(order)])
  }

  /** A visiting order: every name once. */
  ghost predicate Visits(order: seq<AlertName>, names: set<AlertName>) {
    && (forall n :: n in order <==> n in names)
    && (forall i, j :: 0 <= i < j < |order| ==> order[i] != order[j])
  }

  lemma VisitsNext(order: seq<AlertName>, names: set<AlertName>, name: AlertName)
    requires Visits(order, names) && name !in names
    ensures Visits(order + [name], names + {name}) && Front(order + [name]) == order
  {
  }

  lemma PatchedNext(rules: map<AlertName, Rule>, patches: map<AlertName, RuleUpdate>, names: set<AlertName>, name: AlertName)
    requires name in rules && name in patches && name !in names
    ensures var before := PatchedRules(rules, Restrict(patches, names));
            && before[name] == rules[name]
            && PatchedRules(rules, Restrict(patches, names + {name})) == before[name := PatchedRule(rules[name], patches[name])]
  {
  }

  method ApplyRules(codec: Codec, rules: map<AlertName, Rule>, patches: map<AlertName, RuleUpdate>, changes: seq<Change>)
    returns (r: Option<(map<AlertName, Rule>, seq<Change>)>, ghost order: seq<AlertName>)
    ensures r.None? <==> exists n :: n in patches && (n !in rules || BadRule(n, patches[n]))
    ensures r.Some? ==> Visits(order, patches.Keys)
    ensures r.Some? ==> r.value == (PatchedRules(rules, patches), RulesChanges(codec, changes, patches, order))
  {
    hide PatchedRule, RuleChanges, BadRule;
    var c, out := rules, changes;
    var rest := patches.Keys;
    ghost var seen: set<AlertName> := {};
    order := [];
    while rest != {}
      invariant seen !! rest && seen + rest == patches.Keys && Visits(order, seen)
      invariant forall n :: n in seen ==> n in rules && !BadRule(n, patches[n])
      invariant c == PatchedRules(rules, Restrict(patches, seen))
      invariant out == RulesChanges(codec, changes, patches, order)
      decreases rest
    {
      var name :| name in rest;
      if name !in c {
        return None, order;
      }
      var patched := ApplyRule(codec, name, c[name], patches[name], out);
      if patched.None? {
        return None, order;
      }
      PatchedNext(rules, patches, seen, name);
      VisitsNext(order, seen, name);
      hide PatchedRules, Visits, Restrict;
      c, out := c[name := patched.value.0], patched.value.1;
      rest, seen, order := rest - {name}, seen + {name}, order + [name];
    }
    assert Restrict(patches, seen) == patches;
    r := Some((c, out));
  }

  method ApplyAlerts(codec: Codec, a: Alerts, u: AlertsUpdate, changes: seq<Change>)
    returns (r: Option<(Alerts, seq<Change>)>, ghost order: seq<AlertName>)
    ensures r.None? <==> BadAlerts(u, a.rules)
    ensures r.Some? ==> Visits(order, u.rules.Keys)
    ensures r.Some? ==> r.value == (CandidateAlerts(a, u), RulesChanges(codec, UrlChanges(changes, u), u.rules, order))
  {
    var c, out := a, changes;
    order := [];
    if u.webhookUrl.Some? && HasLineBreak(u.webhookUrl.value) {
      return None, order;
    }
    c := c.(webhookUrl := Or(u.webhookUrl, c.webhookUrl));
    out := Add(out, WebhookUrl, u.webhookUrl);
    if u.ntfyUrl.Some? && HasLineBreak(u.ntfyUrl.value) {
      return None, order;
    }
    c := c.(ntfyUrl := Or(u.ntfyUrl, c.ntfyUrl));
    out := Add(out, NtfyUrl, u.ntfyUrl);
    var rules;
    rules, order := ApplyRules(codec, c.rules, u.rules, out);
    if rules.None? {
      return None, order;
    }
    c := c.(rules := rules.value.0);
    r := Some((c, rules.value.1));
  }

  /** The change list of a whole request, given the order in which the rules were visited. */
  ghost function Changes(codec: Codec, u: Request, now: int, order: seq<AlertName>): seq<Change>
    requires u.alerts.Some? ==> Visits(order, u.alerts.value.rules.Keys)
  {
    var a := if u.main.Some? then MainChanges([], u.main.value) else [];
    var b := if u.history.Some? then HistoryChanges(a, u.history.value) else a;
    var c := if u.alerts.Some? then RulesChanges(codec, UrlChanges(b, u.alerts.value), u.alerts.value.rules, order) else b;
    if u.battery.Some? then BatteryChanges(codec, c, u.battery.value, now) else c
  }

  /** The request handler: the new configuration and the changes to make to the text. */
  method ApplyUpdate(codec: Codec, cfg: Config, u: Request, now: int)
    returns (r: Option<(Config, seq<Change>)>, ghost order: seq<AlertName>)
    ensures r.None? <==> Refused(cfg, u)
    ensures r.Some? && u.alerts.Some? ==> Visits(order, u.alerts.value.rules.Keys)
    ensures r.Some? ==> r.value == (Candidate(cfg, u, now), Changes(codec, u, now, order))
  {
    var c := cfg;
    var changes: seq<Change> := [];
    order := [];
    if u.main.Some? {
      var main := ApplyMain(c, u.main.value, changes);
      if main.None? {
        return None, order;
      }
      c, changes := main.value.0, main.value.1;
    }
    if u.history.Some? {
      var history := ApplyHistory(c.history, u.history.value, changes);
      if history.None? {
        return None, order;
      }
      c, changes := c.(history := history.value.0), history.value.1;
    }
    if u.alerts.Some? {
      var alerts;
      alerts, order := ApplyAlerts(codec, c.alerts, u.alerts.value, changes);
      if alerts.None? {
        return None, order;
      }
      c, changes := c.(alerts := alerts.value.0), alerts.value.1;
    }
    if u.battery.Some? {
      var battery := ApplyBattery(codec, c.battery, u.battery.value, now, changes);
      if battery.None? {
        return None, order;
      }
      c, changes := c.(battery := battery.value.0), battery.value.1;
    }
    r := Some((c, changes));
  }
}
