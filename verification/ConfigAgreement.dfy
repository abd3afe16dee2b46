/** The manager's text and its configuration in memory agree: loading the one gives the other. */
module ConfigAgreement {
  import opened Basics
  import opened ConfigText
  import opened Config
  import opened ConfigNames
  import opened ConfigManager

  // ---------------------------------------------------------------- what the loader can produce

  predicate InSeconds(n: int) { 1 <= n <= YEAR_SECONDS }

  predicate RulesLoadable(rules: map<AlertName, Rule>) {
    && OutageStarted in rules && InSeconds(rules[OutageStarted].hold)
    && DishUnreachable in rules && InSeconds(rules[DishUnreachable].hold)
    && PathDegraded in rules && InSeconds(rules[PathDegraded].clearHold)
    && 0.0 <= rules[PathDegraded].threshold <= 1.0 && 0.0 <= rules[PathDegraded].threshold2 <= 60000.0
    && ObstructionHigh in rules && 0.0 <= rules[ObstructionHigh].threshold <= 1.0
  }

  predicate BatteryLoadable(b: Battery) {
    0.0 < b.capacity <= 100000.0 && 0.0 <= b.charge <= 100.0 && 0.0 <= b.reserve <= 95.0 && 1.0 <= b.efficiency <= 100.0
  }

  /** The ranges the loader accepts, and host names it can split apart again. */
  predicate Loadable(cfg: Config) {
    && InSeconds(cfg.pollMap) && InSeconds(cfg.probeInterval) && AreHosts(cfg.probeHosts)
    && 1 <= cfg.history.minuteDays <= 3650 && 1 <= cfg.history.quarterDays <= 3650
    && RulesLoadable(cfg.alerts.rules) && BatteryLoadable(cfg.battery)
  }

  lemma HostsLoadable(value: string, current: seq<string>)
    requires AreHosts(current)
    ensures AreHosts(ReadHosts(value, current))
  {
    FieldsAreHosts(value);
  }

  /** Everything the loader returns is loadable. */
  lemma LoadedIsLoadable(codec: Codec, get: Reader)
    requires LoadFrom(codec, get).Some?
    ensures Loadable(LoadFrom(codec, get).value)
    ensures LoadFrom(codec, get).value.alerts.rules.Keys == set n | n in CATALOG
  {
    hide ReadBool;
    hide ReadText;
    hide ReadHosts;
    hide LoadRules;
    hide RulesLoadable;
    hide LoadBattery;
    hide BatteryLoadable;
    hide LoadHistory;
    HostsLoadable(get(ProbeHosts), ["1.1.1.1", "8.8.8.8"]);
    RulesLoaded(codec, get);
    BatteryLoaded(codec, get);
    HistoryLoaded(get);
  }

  lemma HistoryLoaded(get: Reader)
    requires LoadHistory(get).Some?
    ensures 1 <= LoadHistory(get).value.minuteDays <= 3650 && 1 <= LoadHistory(get).value.quarterDays <= 3650
  {
    hide Atoi;
  }

  lemma BatteryLoaded(codec: Codec, get: Reader)
    requires LoadBattery(codec, get).Some?
    ensures BatteryLoadable(LoadBattery(codec, get).value)
  {
    hide ReadBool;
    hide ReadTime;
  }

  lemma RulesLoaded(codec: Codec, get: Reader)
    requires LoadRules(codec, get).Some?
    ensures RulesLoadable(LoadRules(codec, get).value)
    ensures LoadRules(codec, get).value.Keys == set n | n in CATALOG
  {
    hide Atoi;
    hide LoadEnabled;
    CatalogNames();
  }

  // ---------------------------------------------------------------- one value at a time

  function TextOr(text: Option<string>, old_: string): string { if text.Some? then text.value else old_ }

  lemma IntAgrees(x: Option<int>, old_: string, min: int, max: int, default: int, current: int)
    requires ReadInt(old_, min, max, default) == Some(current)
    requires x.Some? ==> x.value >= 0 && min <= x.value <= max
    ensures ReadInt(TextOr(IntText(x), old_), min, max, default) == Some(Or(x, current))
  {
    if x.Some? {
      ItoaRead(x.value);
    }
  }

  lemma BoolAgrees(x: Option<bool>, old_: string, default: bool, current: bool)
    requires ReadBool(old_, default) == Some(current)
    ensures ReadBool(TextOr(BoolText(x), old_), default) == Some(Or(x, current))
  {
    if x.Some? {
      BoolRead(x.value);
    }
  }

  lemma PercentAgrees(codec: Codec, x: Option<real>, old_: string, default: real, current: real)
    requires RealPrints(codec, x, 100.0) && ReadFloat(codec, old_, 0.0, 100.0, 0.01, default) == Some(current)
    requires x.Some? ==> 0.0 <= x.value <= 1.0
    ensures var t := RealText(codec, x, 100.0);
            ReadFloat(codec, TextOr(t, old_), 0.0, 100.0, 0.01, default) == Some(Or(x, current))
  {
  }

  lemma PlainRealAgrees(codec: Codec, x: Option<real>, old_: string, max: real, default: real, current: real)
    requires RealPrints(codec, x, 1.0) && ReadFloat(codec, old_, 0.0, max, 1.0, default) == Some(current)
    requires x.Some? ==> 0.0 <= x.value <= max
    ensures var t := RealText(codec, x, 1.0);
            ReadFloat(codec, TextOr(t, old_), 0.0, max, 1.0, default) == Some(Or(x, current))
  {
  }

  lemma BatteryAgrees(codec: Codec, x: Option<real>, old_: string, min: real, max: real, exclusive: bool, default: real, current: real)
    requires RealPrints(codec, x, 1.0) && ReadBattery(codec, old_, min, max, exclusive, default) == Some(current)
    requires x.Some? ==> min <= x.value <= max && (exclusive ==> min < x.value)
    ensures var t := RealText(codec, x, 1.0);
            ReadBattery(codec, TextOr(t, old_), min, max, exclusive, default) == Some(Or(x, current))
  {
  }

  lemma HostsAgree(x: Option<seq<string>>, old_: string, default: seq<string>)
    requires x.Some? ==> AreHosts(x.value) && x.value != []
    ensures ReadHosts(TextOr(HostsText(x), old_), default) == Or(x, ReadHosts(old_, default))
  {
    if x.Some? {
      FieldsOfJoin(x.value);
    }
  }

  // ---------------------------------------------------------------- section by section

  /** The reader after the rewrite: the request's texts over the old ones. */
  ghost predicate ReadsOver(codec: Codec, get: Reader, get': Reader, u: Request, now: int) {
    forall s :: Listed(s) ==>
      get'(s) == TextOr(Written(codec, u, now, s), get(s))
  }

  lemma HistoryAgrees(get: Reader, get': Reader, v: HistoryUpdate, h: History)
    requires forall s :: PartOf(s) == HistoryPart ==> get'(s) == TextOr(WrittenHistory(v, s), get(s))
    requires LoadHistory(get) == Some(h) && !BadHistory(v)
    requires 1 <= Or(v.minuteDays, h.minuteDays) <= 3650 && 1 <= Or(v.quarterDays, h.quarterDays) <= 3650
    ensures LoadHistory(get') == Some(CandidateHistory(h, v))
  {
    hide ReadInt;
    hide IntText;
    IntAgrees(v.minuteDays, get(MinuteDays), 1, 3650, 7, h.minuteDays);
    IntAgrees(v.quarterDays, get(QuarterDays), 1, 3650, 30, h.quarterDays);
  }

  lemma TimeAgrees(codec: Codec, fresh_: bool, now: int, old_: string, current: int)
    requires (fresh_ ==> codec.Tells(now)) && ReadTime(codec, old_, 0) == Some(current)
    ensures ReadTime(codec, TextOr(TimeText(codec, fresh_, now), old_), 0) == Some(if fresh_ then now else current)
  {
  }

  /** Loading the battery section, field by field. */
  predicate BatteryReads(codec: Codec, get: Reader, b: Battery) {
    && ReadBool(get(BatteryEnabled), false) == Some(b.enabled)
    && ReadBattery(codec, get(Capacity), 0.0, 100000.0, true, 1000.0) == Some(b.capacity)
    && ReadBattery(codec, get(Charge), 0.0, 100.0, false, 100.0) == Some(b.charge)
    && ReadBattery(codec, get(Reserve), 0.0, 95.0, false, 10.0) == Some(b.reserve)
    && ReadBattery(codec, get(Efficiency), 1.0, 100.0, false, 90.0) == Some(b.efficiency)
    && ReadTime(codec, get(ChargedAt), 0) == Some(b.chargedAt)
  }

  lemma BatteryReadsLoad(codec: Codec, get: Reader, b: Battery)
    ensures LoadBattery(codec, get) == Some(b) <==> BatteryReads(codec, get, b)
  {
    hide ReadBool;
    hide ReadBattery;
    hide ReadTime;
  }

  lemma BatteryTextsRead(codec: Codec, get: Reader, get': Reader, v: BatteryUpdate, now: int)
    requires forall s :: PartOf(s) == BatteryPart ==> get'(s) == TextOr(WrittenBattery(codec, v, now, s), get(s))
    ensures get'(BatteryEnabled) == TextOr(BoolText(v.enabled), get(BatteryEnabled))
    ensures get'(Capacity) == TextOr(RealText(codec, v.capacity, 1.0), get(Capacity))
    ensures get'(Charge) == TextOr(RealText(codec, v.charge, 1.0), get(Charge))
    ensures get'(Reserve) == TextOr(RealText(codec, v.reserve, 1.0), get(Reserve))
    ensures get'(Efficiency) == TextOr(RealText(codec, v.efficiency, 1.0), get(Efficiency))
    ensures get'(ChargedAt) == TextOr(TimeText(codec, v.charge.Some?, now), get(ChargedAt))
  {
    hide RealText;
    hide BoolText;
    hide TimeText;
    hide TextOr;
  }

  lemma BatterySectionAgrees(codec: Codec, get: Reader, get': Reader, v: BatteryUpdate, now: int, b: Battery)
    requires BatteryPrints(codec, v, now) && LoadBattery(codec, get) == Some(b) && !BadBattery(v)
    requires forall s :: PartOf(s) == BatteryPart ==> get'(s) == TextOr(WrittenBattery(codec, v, now, s), get(s))
    ensures LoadBattery(codec, get') == Some(CandidateBattery(b, v, now))
  {
    hide LoadBattery;
    hide ReadBool;
    hide BoolText;
    hide ReadBattery;
    hide RealText;
    hide ReadTime;
    hide TimeText;
    hide TextOr;
    hide WrittenBattery;
    hide Codec.Prints, Codec.Tells;
    BatteryReadsLoad(codec, get, b);
    BatteryReadsLoad(codec, get', CandidateBattery(b, v, now));
    BatteryTextsRead(codec, get, get', v, now);
    BoolAgrees(v.enabled, get(BatteryEnabled), false, b.enabled);
    BatteryAgrees(codec, v.capacity, get(Capacity), 0.0, 100000.0, true, 1000.0, b.capacity);
    BatteryAgrees(codec, v.charge, get(Charge), 0.0, 100.0, false, 100.0, b.charge);
    BatteryAgrees(codec, v.reserve, get(Reserve), 0.0, 95.0, false, 10.0, b.reserve);
    BatteryAgrees(codec, v.efficiency, get(Efficiency), 1.0, 100.0, false, 90.0, b.efficiency);
    TimeAgrees(codec, v.charge.Some?, now, get(ChargedAt), b.chargedAt);
  }

  /** The numeric alert settings after a request's patches. */
  function PatchedNumbers(n: Numbers, patches: map<AlertName, RuleUpdate>): Numbers {
    Numbers(
      if OutageStarted in patches then Or(patches[OutageStarted].holdSeconds, n.outage) else n.outage,
      if DishUnreachable in patches then Or(patches[DishUnreachable].holdSeconds, n.unreachable) else n.unreachable,
      if PathDegraded in patches then Or(patches[PathDegraded].clearSeconds, n.clear) else n.clear,
      if PathDegraded in patches then Or(patches[PathDegraded].threshold, n.loss) else n.loss,
      if PathDegraded in patches then Or(patches[PathDegraded].threshold2, n.rtt) else n.rtt,
      if ObstructionHigh in patches then Or(patches[ObstructionHigh].threshold, n.obstruction) else n.obstruction)
  }

  predicate NumbersLoadable(n: Numbers) {
    && InSeconds(n.outage) && InSeconds(n.unreachable) && InSeconds(n.clear)
    && 0.0 <= n.loss <= 1.0 && 0.0 <= n.rtt <= 60000.0 && 0.0 <= n.obstruction <= 1.0
  }

  predicate NumberSetting(s: Setting) {
    s.OutageHold? || s.UnreachableHold? || s.PathClear? || s.PathLoss? || s.PathRtt? || s.Obstruction?
  }

  /** Loading the numeric alert settings, one by one. */
  predicate NumbersRead(codec: Codec, get: Reader, n: Numbers) {
    && ReadSeconds(get(OutageHold), 30) == Some(n.outage)
    && ReadSeconds(get(UnreachableHold), 60) == Some(n.unreachable)
    && ReadSeconds(get(PathClear), 300) == Some(n.clear)
    && ReadFloat(codec, get(PathLoss), 0.0, 100.0, 0.01, 0.2) == Some(n.loss)
    && ReadFloat(codec, get(PathRtt), 0.0, 60000.0, 1.0, 300.0) == Some(n.rtt)
    && ReadFloat(codec, get(Obstruction), 0.0, 100.0, 0.01, 0.02) == Some(n.obstruction)
  }

  lemma NumbersReadLoad(codec: Codec, get: Reader, n: Numbers)
    ensures LoadNumbers(codec, get) == Some(n) <==> NumbersRead(codec, get, n)
  {
    hide ReadInt;
    hide ReadFloat;
  }

  lemma HoldsAgree(codec: Codec, get: Reader, get': Reader, patches: map<AlertName, RuleUpdate>, n: Numbers)
    requires NumbersRead(codec, get, n) && NumbersLoadable(PatchedNumbers(n, patches))
    requires forall s :: NumberSetting(s) ==> get'(s) == TextOr(WrittenRules(codec, patches, s), get(s))
    ensures ReadSeconds(get'(OutageHold), 30) == Some(PatchedNumbers(n, patches).outage)
    ensures ReadSeconds(get'(UnreachableHold), 60) == Some(PatchedNumbers(n, patches).unreachable)
    ensures ReadSeconds(get'(PathClear), 300) == Some(PatchedNumbers(n, patches).clear)
  {
    hide ReadInt;
    hide ReadFloat;
    hide IntText;
    if OutageStarted in patches {
      IntAgrees(patches[OutageStarted].holdSeconds, get(OutageHold), 1, YEAR_SECONDS, 30, n.outage);
    }
    if DishUnreachable in patches {
      IntAgrees(patches[DishUnreachable].holdSeconds, get(UnreachableHold), 1, YEAR_SECONDS, 60, n.unreachable);
    }
    if PathDegraded in patches {
      IntAgrees(patches[PathDegraded].clearSeconds, get(PathClear), 1, YEAR_SECONDS, 300, n.clear);
    }
  }

  lemma LevelsAgree(codec: Codec, get: Reader, get': Reader, patches: map<AlertName, RuleUpdate>, n: Numbers)
    requires RulesPrint(codec, patches) && NumbersRead(codec, get, n) && NumbersLoadable(PatchedNumbers(n, patches))
    requires forall s :: NumberSetting(s) ==> get'(s) == TextOr(WrittenRules(codec, patches, s), get(s))
    ensures ReadFloat(codec, get'(PathLoss), 0.0, 100.0, 0.01, 0.2) == Some(PatchedNumbers(n, patches).loss)
    ensures ReadFloat(codec, get'(PathRtt), 0.0, 60000.0, 1.0, 300.0) == Some(PatchedNumbers(n, patches).rtt)
    ensures ReadFloat(codec, get'(Obstruction), 0.0, 100.0, 0.01, 0.02) == Some(PatchedNumbers(n, patches).obstruction)
  {
    hide ReadInt;
    hide ReadFloat;
    hide RealText;
    hide Codec.Prints, Codec.Tells;
    if PathDegraded in patches {
      PercentAgrees(codec, patches[PathDegraded].threshold, get(PathLoss), 0.2, n.loss);
      PlainRealAgrees(codec, patches[PathDegraded].threshold2, get(PathRtt), 60000.0, 300.0, n.rtt);
    }
    if ObstructionHigh in patches {
      PercentAgrees(codec, patches[ObstructionHigh].threshold, get(Obstruction), 0.02, n.obstruction);
    }
  }

  lemma NumbersAgree(codec: Codec, get: Reader, get': Reader, patches: map<AlertName, RuleUpdate>, n: Numbers)
    requires RulesPrint(codec, patches) && LoadNumbers(codec, get) == Some(n)
    requires forall s :: NumberSetting(s) ==> get'(s) == TextOr(WrittenRules(codec, patches, s), get(s))
    requires NumbersLoadable(PatchedNumbers(n, patches))
    ensures LoadNumbers(codec, get') == Some(PatchedNumbers(n, patches))
  {
    NumbersReadLoad(codec, get, n);
    NumbersReadLoad(codec, get', PatchedNumbers(n, patches));
    HoldsAgree(codec, get, get', patches, n);
    LevelsAgree(codec, get, get', patches, n);
  }

  /** Patching a loaded rule is loading with patched settings. */
  lemma PatchedLoaded(name: AlertName, enabled: bool, n: Numbers, patches: map<AlertName, RuleUpdate>)
    requires name in patches ==> !BadRule(name, patches[name])
    ensures LoadedRule(name, if name in patches then Or(patches[name].enabled, enabled) else enabled, PatchedNumbers(n, patches)) ==
            if name in patches then PatchedRule(LoadedRule(name, enabled, n), patches[name]) else LoadedRule(name, enabled, n)
  {
  }

  /** Loading the alert rules, rule by rule. */
  predicate RulesRead(get: Reader, rules: map<AlertName, Rule>, numbers: Numbers) {
    && rules.Keys == (set n | n in CATALOG)
    && forall n :: n in CATALOG ==>
         LoadEnabled(get, n).Some? && rules[n] == LoadedRule(n, LoadEnabled(get, n).value, numbers)
  }

  lemma RulesReadLoad(codec: Codec, get: Reader, rules: map<AlertName, Rule>)
    ensures LoadRules(codec, get) == Some(rules) <==>
            LoadNumbers(codec, get).Some? && RulesRead(get, rules, LoadNumbers(codec, get).value)
  {
    hide LoadNumbers;
    hide LoadEnabled;
    hide LoadedRule;
    hide CATALOG;
    if FlagsReadable(get) && LoadNumbers(codec, get).Some? {
      var loaded := LoadRules(codec, get).value;
      if RulesRead(get, rules, LoadNumbers(codec, get).value) {
        assert rules.Keys == loaded.Keys;
        assert rules == loaded;
      }
    }
  }

  lemma OneRuleAgrees(codec: Codec, get: Reader, get': Reader, patches: map<AlertName, RuleUpdate>, name: AlertName, rule: Rule, n: Numbers)
    requires get'(RuleEnabled(name)) == TextOr(WrittenRules(codec, patches, RuleEnabled(name)), get(RuleEnabled(name)))
    requires name in patches ==> !BadRule(name, patches[name])
    requires LoadEnabled(get, name).Some? && rule == LoadedRule(name, LoadEnabled(get, name).value, n)
    ensures LoadEnabled(get', name).Some?
    ensures LoadedRule(name, LoadEnabled(get', name).value, PatchedNumbers(n, patches)) ==
            if name in patches then PatchedRule(rule, patches[name]) else rule
  {
    hide ReadBool;
    hide BoolText;
    hide BadRule;
    hide LoadedRule;
    hide PatchedRule;
    hide PatchedNumbers;
    var enabled := LoadEnabled(get, name).value;
    if name in patches {
      BoolAgrees(patches[name].enabled, get(RuleEnabled(name)), true, enabled);
    }
    PatchedLoaded(name, enabled, n, patches);
  }

  lemma PatchedInRange(rules: map<AlertName, Rule>, patches: map<AlertName, RuleUpdate>, get: Reader, n: Numbers)
    requires RulesRead(get, rules, n) && RulesLoadable(PatchedRules(rules, patches))
    ensures NumbersLoadable(PatchedNumbers(n, patches))
  {
    hide LoadEnabled;
    CatalogNames();
  }

  lemma RulesAgree(codec: Codec, get: Reader, get': Reader, patches: map<AlertName, RuleUpdate>, rules: map<AlertName, Rule>)
    requires RulesPrint(codec, patches) && LoadRules(codec, get) == Some(rules)
    requires forall s :: PartOf(s) == AlertsPart && !s.WebhookUrl? && !s.NtfyUrl? && Listed(s) ==>
               get'(s) == TextOr(WrittenRules(codec, patches, s), get(s))
    requires forall n :: n in patches ==> n in rules && !BadRule(n, patches[n])
    requires RulesLoadable(PatchedRules(rules, patches))
    ensures LoadRules(codec, get') == Some(PatchedRules(rules, patches))
  {
    hide BadRule;
    hide LoadRules;
    hide LoadNumbers;
    hide LoadEnabled;
    hide LoadedRule;
    hide WrittenRules;
    hide PatchedNumbers;
    hide Codec.Prints, Codec.Tells;
    hide RulesLoadable;
    hide CATALOG;
    RulesReadLoad(codec, get, rules);
    RulesReadLoad(codec, get', PatchedRules(rules, patches));
    var numbers := LoadNumbers(codec, get).value;
    PatchedInRange(rules, patches, get, numbers);
    NumbersAgree(codec, get, get', patches, numbers);
    forall n | n in CATALOG
      ensures LoadEnabled(get', n).Some?
      ensures LoadedRule(n, LoadEnabled(get', n).value, PatchedNumbers(numbers, patches)) == PatchedRules(rules, patches)[n]
    {
      ListedName(n);
      OneRuleAgrees(codec, get, get', patches, n, rules[n], numbers);
    }
  }

  lemma ListedName(n: AlertName)
    requires n in CATALOG
    ensures !n.Unlisted?
  {
  }

  lemma AlertsAgree(codec: Codec, get: Reader, get': Reader, v: AlertsUpdate, rules: map<AlertName, Rule>)
    requires RulesPrint(codec, v.rules) && LoadRules(codec, get) == Some(rules) && !BadAlerts(v, rules)
    requires forall s :: PartOf(s) == AlertsPart && Listed(s) ==> get'(s) == TextOr(WrittenAlerts(codec, v, s), get(s))
    requires RulesLoadable(PatchedRules(rules, v.rules))
    ensures LoadRules(codec, get') == Some(PatchedRules(rules, v.rules))
    ensures get'(WebhookUrl) == Or(v.webhookUrl, get(WebhookUrl)) && get'(NtfyUrl) == Or(v.ntfyUrl, get(NtfyUrl))
  {
    hide WrittenRules;
    hide LoadRules;
    hide RulesLoadable;
    RulesAgree(codec, get, get', v.rules, rules);
  }

  lemma MainAgrees(get: Reader, get': Reader, v: MainUpdate, pollMap: int, interval: int, location: bool)
    requires forall s :: PartOf(s) == MainPart ==> get'(s) == TextOr(WrittenMain(v, s), get(s))
    requires !BadMain(v) && InSeconds(Or(v.pollMap, pollMap)) && InSeconds(Or(v.probeInterval, interval))
    requires AreHosts(Or(v.probeHosts, []))
    requires ReadSeconds(get(PollMap), 900) == Some(pollMap) && ReadSeconds(get(ProbeInterval), 2) == Some(interval)
    requires ReadBool(get(LocationEnabled), false) == Some(location)
    ensures ReadSeconds(get'(PollMap), 900) == Some(Or(v.pollMap, pollMap))
    ensures ReadSeconds(get'(ProbeInterval), 2) == Some(Or(v.probeInterval, interval))
    ensures ReadBool(get'(LocationEnabled), false) == Some(Or(v.locationEnabled, location))
    ensures forall hosts :: ReadHosts(get'(ProbeHosts), hosts) == Or(v.probeHosts, ReadHosts(get(ProbeHosts), hosts))
    ensures forall s :: s in [Listen, Token, DishAddr, WanIface, Port, PollStatus, ManageDishRoute] ==> get'(s) == get(s)
  {
    hide ReadInt;
    hide ReadBool;
    hide ReadHosts;
    hide IntText;
    hide BoolText;
    hide HostsText;
    IntAgrees(v.pollMap, get(PollMap), 1, YEAR_SECONDS, 900, pollMap);
    IntAgrees(v.probeInterval, get(ProbeInterval), 1, YEAR_SECONDS, 2, interval);
    BoolAgrees(v.locationEnabled, get(LocationEnabled), false, location);
    forall hosts ensures ReadHosts(get'(ProbeHosts), hosts) == Or(v.probeHosts, ReadHosts(get(ProbeHosts), hosts)) {
      HostsAgree(v.probeHosts, get(ProbeHosts), hosts);
    }
  }

  // ---------------------------------------------------------------- the whole configuration

  /** The fields no request changes. */
  predicate FixedRead(get: Reader, cfg: Config) {
    && cfg.listen == ReadText(get(Listen), "0.0.0.0") && cfg.token == ReadText(get(Token), "")
    && cfg.dishAddr == ReadText(get(DishAddr), "192.168.100.1:9200") && cfg.wanInterface == get(WanIface)
    && ReadInt(get(Port), 1, 65535, 9633) == Some(cfg.port)
    && ReadSeconds(get(PollStatus), 1) == Some(cfg.pollStatus)
    && ReadBool(get(ManageDishRoute), true) == Some(cfg.manageDishRoute)
  }

  predicate MainRead(get: Reader, cfg: Config) {
    && ReadSeconds(get(PollMap), 900) == Some(cfg.pollMap)
    && ReadSeconds(get(ProbeInterval), 2) == Some(cfg.probeInterval)
    && ReadBool(get(LocationEnabled), false) == Some(cfg.locationEnabled)
    && ReadHosts(get(ProbeHosts), ["1.1.1.1", "8.8.8.8"]) == cfg.probeHosts
  }

  predicate ConfigRead(codec: Codec, get: Reader, cfg: Config) {
    && FixedRead(get, cfg) && MainRead(get, cfg)
    && LoadHistory(get) == Some(cfg.history)
    && LoadRules(codec, get) == Some(cfg.alerts.rules)
    && cfg.alerts.webhookUrl == get(WebhookUrl) && cfg.alerts.ntfyUrl == get(NtfyUrl)
    && LoadBattery(codec, get) == Some(cfg.battery)
  }

  lemma ConfigReadLoad(codec: Codec, get: Reader, cfg: Config)
    ensures LoadFrom(codec, get) == Some(cfg) <==> ConfigRead(codec, get, cfg)
  {
    hide ReadText;
    hide ReadInt;
    hide ReadBool;
    hide ReadHosts;
    hide LoadHistory;
    hide LoadRules;
    hide LoadBattery;
  }

  lemma MainSectionAgrees(codec: Codec, get: Reader, get': Reader, u: Request, now: int, cfg: Config)
    requires ReadsOver(codec, get, get', u, now) && FixedRead(get, cfg) && MainRead(get, cfg)
    requires u.main.Some? ==> !BadMain(u.main.value)
    requires Loadable(Candidate(cfg, u, now))
    ensures FixedRead(get', Candidate(cfg, u, now)) && MainRead(get', Candidate(cfg, u, now))
  {
    hide ReadText;
    hide ReadInt;
    hide ReadBool;
    hide ReadHosts;
    hide RulesLoadable;
    hide BatteryLoadable;
    hide CandidateHistory;
    hide CandidateAlerts;
    hide CandidateBattery;
    if u.main.Some? {
      hide WrittenMain;
      var v := u.main.value;
      MainAgrees(get, get', v, cfg.pollMap, cfg.probeInterval, cfg.locationEnabled);
      var fixed := [Listen, Token, DishAddr, WanIface, Port, PollStatus, ManageDishRoute];
      assert fixed[0] == Listen && fixed[1] == Token && fixed[2] == DishAddr && fixed[3] == WanIface;
      assert fixed[4] == Port && fixed[5] == PollStatus && fixed[6] == ManageDishRoute;
    }
  }

  lemma HistorySectionAgrees(codec: Codec, get: Reader, get': Reader, u: Request, now: int, cfg: Config)
    requires ReadsOver(codec, get, get', u, now) && LoadHistory(get) == Some(cfg.history)
    requires u.history.Some? ==> !BadHistory(u.history.value)
    requires Loadable(Candidate(cfg, u, now))
    ensures LoadHistory(get') == Some(Candidate(cfg, u, now).history)
  {
    hide BadHistory;
    hide WrittenHistory;
    hide RulesLoadable;
    hide BatteryLoadable;
    hide LoadHistory;
    if u.history.Some? {
      HistoryAgrees(get, get', u.history.value, cfg.history);
    } else {
      SameHistory(get, get');
    }
  }

  lemma ChargeSectionAgrees(codec: Codec, get: Reader, get': Reader, u: Request, now: int, cfg: Config)
    requires RequestPrints(codec, u, now) && ReadsOver(codec, get, get', u, now) && LoadBattery(codec, get) == Some(cfg.battery)
    requires u.battery.Some? ==> !BadBattery(u.battery.value)
    ensures LoadBattery(codec, get') == Some(Candidate(cfg, u, now).battery)
  {
    hide BadBattery;
    hide WrittenBattery;
    hide LoadBattery;
    hide CandidateBattery;
    hide Codec.Prints, Codec.Tells;
    if u.battery.Some? {
      BatterySectionAgrees(codec, get, get', u.battery.value, now, cfg.battery);
    } else {
      SameBattery(codec, get, get');
    }
  }

  lemma AlertSectionAgrees(codec: Codec, get: Reader, get': Reader, u: Request, now: int, cfg: Config)
    requires RequestPrints(codec, u, now) && ReadsOver(codec, get, get', u, now) && LoadRules(codec, get) == Some(cfg.alerts.rules)
    requires cfg.alerts.webhookUrl == get(WebhookUrl) && cfg.alerts.ntfyUrl == get(NtfyUrl)
    requires u.alerts.Some? ==> !BadAlerts(u.alerts.value, cfg.alerts.rules)
    requires RulesLoadable(Candidate(cfg, u, now).alerts.rules)
    ensures var a := Candidate(cfg, u, now).alerts;
            LoadRules(codec, get') == Some(a.rules) && a.webhookUrl == get'(WebhookUrl) && a.ntfyUrl == get'(NtfyUrl)
  {
    hide BadAlerts;
    hide WrittenAlerts;
    hide LoadRules;
    hide RulesLoadable;
    hide Codec.Prints, Codec.Tells;
    if u.alerts.Some? {
      AlertsAgree(codec, get, get', u.alerts.value, cfg.alerts.rules);
    } else {
      SameRules(codec, get, get', cfg.alerts.rules);
    }
  }

  lemma SameHistory(get: Reader, get': Reader)
    requires forall s :: PartOf(s) == HistoryPart ==> get'(s) == get(s)
    ensures LoadHistory(get') == LoadHistory(get)
  {
    hide ReadInt;
    hide ReadText;
  }

  lemma SameBattery(codec: Codec, get: Reader, get': Reader)
    requires forall s :: PartOf(s) == BatteryPart ==> get'(s) == get(s)
    ensures LoadBattery(codec, get') == LoadBattery(codec, get)
  {
    hide ReadBool;
    hide ReadBattery;
    hide ReadTime;
    assert get'(BatteryEnabled) == get(BatteryEnabled) && get'(Capacity) == get(Capacity) && get'(Charge) == get(Charge);
    assert get'(Reserve) == get(Reserve) && get'(Efficiency) == get(Efficiency) && get'(ChargedAt) == get(ChargedAt);
    hide PartOf;
  }

  lemma SameRules(codec: Codec, get: Reader, get': Reader, rules: map<AlertName, Rule>)
    requires LoadRules(codec, get) == Some(rules)
    requires forall s :: PartOf(s) == AlertsPart && Listed(s) ==> get'(s) == get(s)
    ensures LoadRules(codec, get') == Some(rules)
  {
    hide LoadRules;
    hide Codec.Prints, Codec.Tells;
    RulesLoaded(codec, get);
    assert PatchedRules(rules, map[]) == rules;
    RulesAgree(codec, get, get', map[], rules);
  }

  /** If the new configuration is loadable, the rewritten settings load to it. */
  lemma ReaderAgrees(codec: Codec, get: Reader, get': Reader, u: Request, now: int, cfg: Config)
    requires RequestPrints(codec, u, now) && LoadFrom(codec, get) == Some(cfg) && !Refused(cfg, u)
    requires ReadsOver(codec, get, get', u, now) && Loadable(Candidate(cfg, u, now))
    ensures LoadFrom(codec, get') == Some(Candidate(cfg, u, now))
  {
    hide LoadFrom;
    hide FixedRead;
    hide MainRead;
    hide ReadsOver;
    hide Candidate;
    hide RulesLoadable;
    hide BatteryLoadable;
    hide BadMain;
    hide BadHistory;
    hide BadAlerts;
    hide BadBattery;
    hide Codec.Prints, Codec.Tells;
    ConfigReadLoad(codec, get, cfg);
    ConfigReadLoad(codec, get', Candidate(cfg, u, now));
    MainSectionAgrees(codec, get, get', u, now, cfg);
    HistorySectionAgrees(codec, get, get', u, now, cfg);
    AlertSectionAgrees(codec, get, get', u, now, cfg);
    ChargeSectionAgrees(codec, get, get', u, now, cfg);
  }
}
