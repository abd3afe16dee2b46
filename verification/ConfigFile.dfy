/** The configuration file by its own words: which option of which section becomes which field when the file is
    loaded, and which options an accepted request writes. Section and option names are spelled out here, and
    not looked up in the table that the loader and the manager share. */
module ConfigFile {
  import opened Basics
  import opened Uci
  import opened UciRewriting
  import opened UciTheorems
  import opened ConfigText
  import opened Config
  import opened ConfigAgreement

  // ---------------------------------------------------------------- sections and values

  /** Section i is the first of that type and name. */
  predicate FirstSection(doc: Document, typ: string, name: string, i: nat) {
    i < |doc| && doc[i].key == Key(typ, name) && forall j :: 0 <= j < i ==> doc[j].key != Key(typ, name)
  }

  /** The options of the first section of that type and name; none when there is no such section. */
  ghost predicate SectionIs(doc: Document, typ: string, name: string, options: map<string, string>) {
    && (forall i: nat :: FirstSection(doc, typ, name, i) ==> options == doc[i].options)
    && ((forall i :: 0 <= i < |doc| ==> doc[i].key != Key(typ, name)) ==> options == map[])
  }

  /** The four sections the daemon reads. */
  ghost predicate Sections(doc: Document, main: map<string, string>, history: map<string, string>,
                           alerts: map<string, string>, battery: map<string, string>) {
    && SectionIs(doc, "starwatch", "main", main) && SectionIs(doc, "history", "", history)
    && SectionIs(doc, "alerts", "", alerts) && SectionIs(doc, "battery", "", battery)
  }

  function Given(options: map<string, string>, option: string): string {
    if option in options then options[option] else ""
  }

  lemma OneFirst(doc: Document, typ: string, name: string, i: nat, j: nat)
    requires FirstSection(doc, typ, name, i) && FirstSection(doc, typ, name, j)
    ensures i == j
  {
  }

  lemma SectionOptions(doc: Document, typ: string, name: string, options: map<string, string>)
    ensures SectionIs(doc, typ, name, options) <==> OptionsAt(doc, Key(typ, name)) == options
  {
    var key := Key(typ, name);
    if key in KeysOf(doc) {
      var i := FirstWithKey(doc, key);
      FindAt(doc, key, i);
      assert FirstSection(doc, typ, name, i);
      forall j: nat | FirstSection(doc, typ, name, j) ensures j == i {
        OneFirst(doc, typ, name, i, j);
      }
    } else {
      forall i | 0 <= i < |doc| ensures doc[i].key != key {
        assert doc[i] in doc;
      }
      forall i: nat ensures !FirstSection(doc, typ, name, i) {
      }
    }
  }

  predicate TextIs(text: string, default: string, value: string) { value == if text == "" then default else text }

  predicate IntIs(text: string, min: int, max: int, default: int, value: int) {
    if text == "" then value == default else Atoi(text) == Some(value) && min <= value <= max
  }

  predicate BoolIs(text: string, default: bool, value: bool) {
    if text == "" then value == default
    else if value then text in {"1", "t", "T", "true", "TRUE", "True"}
    else text in {"0", "f", "F", "false", "FALSE", "False"}
  }

  /** Read as x between min and max, and scaled. */
  predicate RealIs(codec: Codec, text: string, min: real, max: real, scale: real, default: real, value: real) {
    if text == "" then value == default
    else codec.parseFloat(text).Some? && min <= codec.parseFloat(text).value <= max && value == codec.parseFloat(text).value * scale
  }

  predicate TimeIs(codec: Codec, text: string, value: int) {
    if text == "" then value == 0 else codec.parseTime(text) == Some(value)
  }

  lemma IntMeans(text: string, min: int, max: int, default: int, value: int)
    ensures ReadInt(text, min, max, default) == Some(value) <==> IntIs(text, min, max, default, value)
  {
    hide Atoi;
  }

  lemma BoolMeans(text: string, default: bool, value: bool)
    ensures ReadBool(text, default) == Some(value) <==> BoolIs(text, default, value)
  {
    BoolTexts(text);
    hide ParseBool;
  }

  lemma BoolTexts(text: string)
    ensures ParseBool(text) == Some(true) <==> text in {"1", "t", "T", "true", "TRUE", "True"}
    ensures ParseBool(text) == Some(false) <==> text in {"0", "f", "F", "false", "FALSE", "False"}
  {
  }

  lemma RealMeans(codec: Codec, text: string, min: real, max: real, scale: real, default: real, value: real)
    ensures ReadFloat(codec, text, min, max, scale, default) == Some(value)
       <==> RealIs(codec, text, min, max, scale, default, value)
  {
  }

  lemma NumberMeans(codec: Codec, text: string, min: real, max: real, exclusive: bool, default: real, value: real)
    ensures ReadBattery(codec, text, min, max, exclusive, default) == Some(value)
       <==> RealIs(codec, text, min, max, 1.0, default, value) && (text != "" && exclusive ==> value > min)
  {
  }

  lemma TimeMeans(codec: Codec, text: string, value: int)
    ensures ReadTime(codec, text, 0) == Some(value) <==> TimeIs(codec, text, value)
  {
  }

  // ---------------------------------------------------------------- what the file means

  const YEAR := 31_536_000

  predicate MainMeans(o: map<string, string>, cfg: Config) {
    && TextIs(Given(o, "listen"), "0.0.0.0", cfg.listen) && TextIs(Given(o, "token"), "", cfg.token)
    && TextIs(Given(o, "dish_addr"), "192.168.100.1:9200", cfg.dishAddr) && cfg.wanInterface == Given(o, "wan_iface")
    && cfg.probeHosts == (if Given(o, "probe_hosts") == "" then ["1.1.1.1", "8.8.8.8"] else Fields(Given(o, "probe_hosts")))
    && IntIs(Given(o, "port"), 1, 65535, 9633, cfg.port)
    && IntIs(Given(o, "poll_status"), 1, YEAR, 1, cfg.pollStatus)
    && IntIs(Given(o, "poll_map"), 1, YEAR, 900, cfg.pollMap)
    && IntIs(Given(o, "probe_interval"), 1, YEAR, 2, cfg.probeInterval)
    && BoolIs(Given(o, "location_enabled"), false, cfg.locationEnabled)
    && BoolIs(Given(o, "manage_dish_route"), true, cfg.manageDishRoute)
  }

  predicate HistoryMeans(o: map<string, string>, h: History) {
    && IntIs(Given(o, "ram_hours"), 1, 8760, 1, h.ramHours)
    && IntIs(Given(o, "minute_days"), 1, 3650, 7, h.minuteDays)
    && IntIs(Given(o, "quarter_days"), 1, 3650, 30, h.quarterDays)
    && TextIs(Given(o, "db_path"), "/etc/starwatch/history.db", h.dbPath)
    && IntIs(Given(o, "flush_secs"), 1, YEAR, 300, h.flushSecs)
  }

  predicate BatteryMeans(codec: Codec, o: map<string, string>, b: Battery) {
    && BoolIs(Given(o, "enabled"), false, b.enabled)
    && RealIs(codec, Given(o, "capacity_wh"), 0.0, 100000.0, 1.0, 1000.0, b.capacity) && b.capacity > 0.0
    && RealIs(codec, Given(o, "state_of_charge_percent"), 0.0, 100.0, 1.0, 100.0, b.charge)
    && RealIs(codec, Given(o, "reserve_percent"), 0.0, 95.0, 1.0, 10.0, b.reserve)
    && RealIs(codec, Given(o, "conversion_efficiency_percent"), 1.0, 100.0, 1.0, 90.0, b.efficiency)
    && TimeIs(codec, Given(o, "state_of_charge_updated_at"), b.chargedAt)
  }

  /** The option that switches a rule on or off. */
  function FlagOption(name: AlertName): string
    requires !name.Unlisted?
  {
    match name
    case OutageStarted => "outage_started_enabled"
    case DishUnreachable => "dish_unreachable_enabled"
    case PathDegraded => "path_degraded_enabled"
    case ObstructionHigh => "obstruction_high_enabled"
    case ThermalThrottle => "thermal_throttle_enabled"
    case ThermalShutdown => "thermal_shutdown_enabled"
    case MotorsStuck => "motors_stuck_enabled"
    case WaterDetected => "water_detected_enabled"
    case MastNotVertical => "mast_not_vertical_enabled"
    case SlowEthernet => "slow_ethernet_enabled"
    case FirmwarePending => "firmware_pending_enabled"
    case FailoverEvent => "failover_event_enabled"
  }

  /** The thresholds and hold times of a rule; most have none. */
  predicate LevelsMean(codec: Codec, o: map<string, string>, name: AlertName, rule: Rule) {
    match name
    case OutageStarted =>
      IntIs(Given(o, "outage_started_secs"), 1, YEAR, 30, rule.hold)
      && rule.threshold == 0.0 && rule.threshold2 == 0.0 && rule.clearHold == 0
    case DishUnreachable =>
      IntIs(Given(o, "dish_unreachable_secs"), 1, YEAR, 60, rule.hold)
      && rule.threshold == 0.0 && rule.threshold2 == 0.0 && rule.clearHold == 0
    case PathDegraded =>
      && IntIs(Given(o, "path_clear_secs"), 1, YEAR, 300, rule.clearHold)
      && RealIs(codec, Given(o, "path_loss_percent"), 0.0, 100.0, 0.01, 0.2, rule.threshold)
      && RealIs(codec, Given(o, "path_rtt_ms"), 0.0, 60000.0, 1.0, 300.0, rule.threshold2) && rule.hold == 0
    case ObstructionHigh =>
      RealIs(codec, Given(o, "obstruction_percent"), 0.0, 100.0, 0.01, 0.02, rule.threshold)
      && rule.threshold2 == 0.0 && rule.hold == 0 && rule.clearHold == 0
    case _ => rule.threshold == 0.0 && rule.threshold2 == 0.0 && rule.hold == 0 && rule.clearHold == 0
  }

  predicate RuleMeans(codec: Codec, o: map<string, string>, name: AlertName, rule: Rule)
    requires !name.Unlisted?
  {
    BoolIs(Given(o, FlagOption(name)), true, rule.enabled) && LevelsMean(codec, o, name, rule)
  }

  /** One rule for each of the twelve alerts. */
  predicate AlertsMean(codec: Codec, o: map<string, string>, a: Alerts) {
    && a.webhookUrl == Given(o, "webhook_url") && a.ntfyUrl == Given(o, "ntfy_url")
    && Twelve(a.rules.Keys) && RulesMean(codec, o, a.rules)
  }

  predicate Twelve(names: set<AlertName>) {
    names == {OutageStarted, DishUnreachable, PathDegraded, ObstructionHigh, ThermalThrottle, ThermalShutdown,
              MotorsStuck, WaterDetected, MastNotVertical, SlowEthernet, FirmwarePending, FailoverEvent}
  }

  predicate RulesMean(codec: Codec, o: map<string, string>, rules: map<AlertName, Rule>) {
    forall name :: name in rules ==> !name.Unlisted? && RuleMeans(codec, o, name, rules[name])
  }

  // ---------------------------------------------------------------- the loader reads just that

  lemma TextGiven(doc: Document, o: map<string, string>, s: Setting, p: Part)
    requires OptionsAt(doc, p.Key()) == o && PartOf(s) == p
    ensures Text(doc, s) == Given(o, OptionOf(s))
  {
    hide OptionsAt, OptionOf;
  }

  // The table of option names, a few at a time.

  lemma ListenNames()
    ensures OptionOf(Listen) == "listen" && PartOf(Listen) == MainPart
    ensures OptionOf(Token) == "token" && PartOf(Token) == MainPart
    ensures OptionOf(DishAddr) == "dish_addr" && PartOf(DishAddr) == MainPart
  {
  }

  lemma ProbeNames()
    ensures OptionOf(WanIface) == "wan_iface" && PartOf(WanIface) == MainPart
    ensures OptionOf(ProbeHosts) == "probe_hosts" && PartOf(ProbeHosts) == MainPart
    ensures OptionOf(ProbeInterval) == "probe_interval" && PartOf(ProbeInterval) == MainPart
  {
  }

  lemma PollNames()
    ensures OptionOf(Port) == "port" && PartOf(Port) == MainPart
    ensures OptionOf(PollStatus) == "poll_status" && PartOf(PollStatus) == MainPart
    ensures OptionOf(PollMap) == "poll_map" && PartOf(PollMap) == MainPart
  {
  }

  lemma SwitchNames()
    ensures OptionOf(LocationEnabled) == "location_enabled" && PartOf(LocationEnabled) == MainPart
    ensures OptionOf(ManageDishRoute) == "manage_dish_route" && PartOf(ManageDishRoute) == MainPart
  {
  }

  lemma RetentionNames()
    ensures OptionOf(RamHours) == "ram_hours" && PartOf(RamHours) == HistoryPart
    ensures OptionOf(MinuteDays) == "minute_days" && PartOf(MinuteDays) == HistoryPart
    ensures OptionOf(QuarterDays) == "quarter_days" && PartOf(QuarterDays) == HistoryPart
  {
  }

  lemma DatabaseNames()
    ensures OptionOf(DbPath) == "db_path" && PartOf(DbPath) == HistoryPart
    ensures OptionOf(FlushSecs) == "flush_secs" && PartOf(FlushSecs) == HistoryPart
  {
  }

  lemma UrlNames()
    ensures OptionOf(WebhookUrl) == "webhook_url" && PartOf(WebhookUrl) == AlertsPart
    ensures OptionOf(NtfyUrl) == "ntfy_url" && PartOf(NtfyUrl) == AlertsPart
  {
  }

  lemma HoldNames()
    ensures OptionOf(OutageHold) == "outage_started_secs" && PartOf(OutageHold) == AlertsPart
    ensures OptionOf(UnreachableHold) == "dish_unreachable_secs" && PartOf(UnreachableHold) == AlertsPart
    ensures OptionOf(PathClear) == "path_clear_secs" && PartOf(PathClear) == AlertsPart
  {
  }

  lemma LevelNames()
    ensures OptionOf(PathLoss) == "path_loss_percent" && PartOf(PathLoss) == AlertsPart
    ensures OptionOf(PathRtt) == "path_rtt_ms" && PartOf(PathRtt) == AlertsPart
    ensures OptionOf(Obstruction) == "obstruction_percent" && PartOf(Obstruction) == AlertsPart
  {
  }

  lemma ChargeNames()
    ensures OptionOf(BatteryEnabled) == "enabled" && PartOf(BatteryEnabled) == BatteryPart
    ensures OptionOf(Charge) == "state_of_charge_percent" && PartOf(Charge) == BatteryPart
    ensures OptionOf(ChargedAt) == "state_of_charge_updated_at" && PartOf(ChargedAt) == BatteryPart
  {
  }

  lemma LimitNames()
    ensures OptionOf(Capacity) == "capacity_wh" && PartOf(Capacity) == BatteryPart
    ensures OptionOf(Reserve) == "reserve_percent" && PartOf(Reserve) == BatteryPart
    ensures OptionOf(Efficiency) == "conversion_efficiency_percent" && PartOf(Efficiency) == BatteryPart
  {
  }

  lemma MainTexts(doc: Document, o: map<string, string>)
    requires OptionsAt(doc, Key("starwatch", "main")) == o
    ensures Text(doc, Listen) == Given(o, "listen") && Text(doc, Token) == Given(o, "token")
    ensures Text(doc, DishAddr) == Given(o, "dish_addr") && Text(doc, WanIface) == Given(o, "wan_iface")
    ensures Text(doc, ProbeHosts) == Given(o, "probe_hosts") && Text(doc, Port) == Given(o, "port")
    ensures Text(doc, PollStatus) == Given(o, "poll_status") && Text(doc, PollMap) == Given(o, "poll_map")
    ensures Text(doc, ProbeInterval) == Given(o, "probe_interval")
    ensures Text(doc, LocationEnabled) == Given(o, "location_enabled")
    ensures Text(doc, ManageDishRoute) == Given(o, "manage_dish_route")
  {
    assert MainPart.Key() == Key("starwatch", "main");
    hide Text, Given, OptionOf, OptionsAt, PartOf, Part.Key;
    TextGiven(doc, o, Listen, MainPart);
    TextGiven(doc, o, Token, MainPart);
    TextGiven(doc, o, DishAddr, MainPart);
    TextGiven(doc, o, WanIface, MainPart);
    TextGiven(doc, o, ProbeHosts, MainPart);
    TextGiven(doc, o, Port, MainPart);
    TextGiven(doc, o, PollStatus, MainPart);
    TextGiven(doc, o, PollMap, MainPart);
    TextGiven(doc, o, ProbeInterval, MainPart);
    TextGiven(doc, o, LocationEnabled, MainPart);
    TextGiven(doc, o, ManageDishRoute, MainPart);
    ListenNames();
    ProbeNames();
    PollNames();
    SwitchNames();
  }

  lemma HistoryTexts(doc: Document, o: map<string, string>)
    requires OptionsAt(doc, Key("history", "")) == o
    ensures Text(doc, RamHours) == Given(o, "ram_hours") && Text(doc, MinuteDays) == Given(o, "minute_days")
    ensures Text(doc, QuarterDays) == Given(o, "quarter_days") && Text(doc, DbPath) == Given(o, "db_path")
    ensures Text(doc, FlushSecs) == Given(o, "flush_secs")
  {
    assert HistoryPart.Key() == Key("history", "");
    hide Text, Given, OptionOf, OptionsAt, PartOf, Part.Key;
    TextGiven(doc, o, RamHours, HistoryPart);
    TextGiven(doc, o, MinuteDays, HistoryPart);
    TextGiven(doc, o, QuarterDays, HistoryPart);
    TextGiven(doc, o, DbPath, HistoryPart);
    TextGiven(doc, o, FlushSecs, HistoryPart);
    RetentionNames();
    DatabaseNames();
  }

  lemma UrlTexts(doc: Document, o: map<string, string>)
    requires OptionsAt(doc, Key("alerts", "")) == o
    ensures Text(doc, WebhookUrl) == Given(o, "webhook_url")
    ensures Text(doc, NtfyUrl) == Given(o, "ntfy_url")
  {
    assert AlertsPart.Key() == Key("alerts", "");
    hide Text, Given, OptionOf, OptionsAt, PartOf, Part.Key;
    UrlNames();
    TextGiven(doc, o, WebhookUrl, AlertsPart);
    TextGiven(doc, o, NtfyUrl, AlertsPart);
  }

  lemma HoldTexts(doc: Document, o: map<string, string>)
    requires OptionsAt(doc, Key("alerts", "")) == o
    ensures Text(doc, OutageHold) == Given(o, "outage_started_secs")
    ensures Text(doc, UnreachableHold) == Given(o, "dish_unreachable_secs")
    ensures Text(doc, PathClear) == Given(o, "path_clear_secs")
  {
    assert AlertsPart.Key() == Key("alerts", "");
    hide Text, Given, OptionOf, OptionsAt, PartOf, Part.Key;
    HoldNames();
    TextGiven(doc, o, OutageHold, AlertsPart);
    TextGiven(doc, o, UnreachableHold, AlertsPart);
    TextGiven(doc, o, PathClear, AlertsPart);
  }

  lemma LevelTexts(doc: Document, o: map<string, string>)
    requires OptionsAt(doc, Key("alerts", "")) == o
    ensures Text(doc, PathLoss) == Given(o, "path_loss_percent")
    ensures Text(doc, PathRtt) == Given(o, "path_rtt_ms")
    ensures Text(doc, Obstruction) == Given(o, "obstruction_percent")
  {
    assert AlertsPart.Key() == Key("alerts", "");
    hide Text, Given, OptionOf, OptionsAt, PartOf, Part.Key;
    LevelNames();
    TextGiven(doc, o, PathLoss, AlertsPart);
    TextGiven(doc, o, PathRtt, AlertsPart);
    TextGiven(doc, o, Obstruction, AlertsPart);
  }

  lemma ChargeTexts(doc: Document, o: map<string, string>)
    requires OptionsAt(doc, Key("battery", "")) == o
    ensures Text(doc, BatteryEnabled) == Given(o, "enabled")
    ensures Text(doc, Charge) == Given(o, "state_of_charge_percent")
    ensures Text(doc, ChargedAt) == Given(o, "state_of_charge_updated_at")
  {
    assert BatteryPart.Key() == Key("battery", "");
    hide Text, Given, OptionOf, OptionsAt, PartOf, Part.Key;
    ChargeNames();
    TextGiven(doc, o, BatteryEnabled, BatteryPart);
    TextGiven(doc, o, Charge, BatteryPart);
    TextGiven(doc, o, ChargedAt, BatteryPart);
  }

  lemma LimitTexts(doc: Document, o: map<string, string>)
    requires OptionsAt(doc, Key("battery", "")) == o
    ensures Text(doc, Capacity) == Given(o, "capacity_wh")
    ensures Text(doc, Reserve) == Given(o, "reserve_percent")
    ensures Text(doc, Efficiency) == Given(o, "conversion_efficiency_percent")
  {
    assert BatteryPart.Key() == Key("battery", "");
    hide Text, Given, OptionOf, OptionsAt, PartOf, Part.Key;
    LimitNames();
    TextGiven(doc, o, Capacity, BatteryPart);
    TextGiven(doc, o, Reserve, BatteryPart);
    TextGiven(doc, o, Efficiency, BatteryPart);
  }

  lemma FlagText(doc: Document, o: map<string, string>, name: AlertName)
    requires OptionsAt(doc, Key("alerts", "")) == o && !name.Unlisted?
    ensures Text(doc, RuleEnabled(name)) == Given(o, FlagOption(name))
  {
    TextGiven(doc, o, RuleEnabled(name), AlertsPart);
    FlagOptionIs(name);
    hide OptionOf, FlagOption;
  }

  lemma FlagsOfLevels(name: AlertName)
    requires name in {OutageStarted, DishUnreachable, PathDegraded, ObstructionHigh}
    ensures name.Text() + "_enabled" == FlagOption(name)
  {
    match name
    case OutageStarted => assert "outage_started" + "_enabled" == "outage_started_enabled";
    case DishUnreachable => assert "dish_unreachable" + "_enabled" == "dish_unreachable_enabled";
    case PathDegraded => assert "path_degraded" + "_enabled" == "path_degraded_enabled";
    case ObstructionHigh => assert "obstruction_high" + "_enabled" == "obstruction_high_enabled";
  }

  lemma FlagsOfDish(name: AlertName)
    requires name in {ThermalThrottle, ThermalShutdown, MotorsStuck, WaterDetected}
    ensures name.Text() + "_enabled" == FlagOption(name)
  {
    match name
    case ThermalThrottle => assert "thermal_throttle" + "_enabled" == "thermal_throttle_enabled";
    case ThermalShutdown => assert "thermal_shutdown" + "_enabled" == "thermal_shutdown_enabled";
    case MotorsStuck => assert "motors_stuck" + "_enabled" == "motors_stuck_enabled";
    case WaterDetected => assert "water_detected" + "_enabled" == "water_detected_enabled";
  }

  lemma FlagsOfRest(name: AlertName)
    requires name in {MastNotVertical, SlowEthernet, FirmwarePending, FailoverEvent}
    ensures name.Text() + "_enabled" == FlagOption(name)
  {
    match name
    case MastNotVertical => assert "mast_not_vertical" + "_enabled" == "mast_not_vertical_enabled";
    case SlowEthernet => assert "slow_ethernet" + "_enabled" == "slow_ethernet_enabled";
    case FirmwarePending => assert "firmware_pending" + "_enabled" == "firmware_pending_enabled";
    case FailoverEvent => assert "failover_event" + "_enabled" == "failover_event_enabled";
  }

  lemma FlagOptionIs(name: AlertName)
    requires !name.Unlisted?
    ensures OptionOf(RuleEnabled(name)) == FlagOption(name)
  {
    hide FlagOption, AlertName.Text;
    if name in {OutageStarted, DishUnreachable, PathDegraded, ObstructionHigh} {
      FlagsOfLevels(name);
    } else if name in {ThermalThrottle, ThermalShutdown, MotorsStuck, WaterDetected} {
      FlagsOfDish(name);
    } else {
      FlagsOfRest(name);
    }
  }

  lemma MainLoaded(doc: Document, o: map<string, string>, cfg: Config)
    requires OptionsAt(doc, Key("starwatch", "main")) == o
    ensures FixedRead(ReaderOf(doc), cfg) && MainRead(ReaderOf(doc), cfg) <==> MainMeans(o, cfg)
  {
    MainTexts(doc, o);
    hide Text, Given, ReadInt, ReadBool, IntIs, BoolIs, Fields;
    IntMeans(Given(o, "port"), 1, 65535, 9633, cfg.port);
    IntMeans(Given(o, "poll_status"), 1, YEAR, 1, cfg.pollStatus);
    IntMeans(Given(o, "poll_map"), 1, YEAR, 900, cfg.pollMap);
    IntMeans(Given(o, "probe_interval"), 1, YEAR, 2, cfg.probeInterval);
    BoolMeans(Given(o, "location_enabled"), false, cfg.locationEnabled);
    BoolMeans(Given(o, "manage_dish_route"), true, cfg.manageDishRoute);
  }

  /** Loading the history section, field by field. */
  predicate HistoryReads(get: Reader, h: History) {
    && ReadInt(get(RamHours), 1, 24 * 365, 1) == Some(h.ramHours)
    && ReadInt(get(MinuteDays), 1, 3650, 7) == Some(h.minuteDays)
    && ReadInt(get(QuarterDays), 1, 3650, 30) == Some(h.quarterDays)
    && ReadText(get(DbPath), "/etc/starwatch/history.db") == h.dbPath
    && ReadSeconds(get(FlushSecs), 300) == Some(h.flushSecs)
  }

  lemma HistoryReadsLoad(get: Reader, h: History)
    ensures LoadHistory(get) == Some(h) <==> HistoryReads(get, h)
  {
    hide ReadInt, ReadText;
  }

  lemma HistorySectionLoaded(doc: Document, o: map<string, string>, h: History)
    requires OptionsAt(doc, Key("history", "")) == o
    ensures LoadHistory(ReaderOf(doc)) == Some(h) <==> HistoryMeans(o, h)
  {
    HistoryTexts(doc, o);
    HistoryReadsLoad(ReaderOf(doc), h);
    hide LoadHistory, Text, Given, ReadInt, IntIs;
    IntMeans(Given(o, "ram_hours"), 1, 8760, 1, h.ramHours);
    IntMeans(Given(o, "minute_days"), 1, 3650, 7, h.minuteDays);
    IntMeans(Given(o, "quarter_days"), 1, 3650, 30, h.quarterDays);
    IntMeans(Given(o, "flush_secs"), 1, YEAR, 300, h.flushSecs);
  }

  lemma BatterySectionLoaded(codec: Codec, doc: Document, o: map<string, string>, b: Battery)
    requires OptionsAt(doc, Key("battery", "")) == o
    ensures LoadBattery(codec, ReaderOf(doc)) == Some(b) <==> BatteryMeans(codec, o, b)
  {
    ChargeTexts(doc, o);
    LimitTexts(doc, o);
    BatteryReadsLoad(codec, ReaderOf(doc), b);
    assert Given(o, "capacity_wh") == "" && RealIs(codec, Given(o, "capacity_wh"), 0.0, 100000.0, 1.0, 1000.0, b.capacity) ==> b.capacity == 1000.0;
    hide LoadBattery, Text, Given, ReadBattery, ReadBool, ReadTime, RealIs, BoolIs, TimeIs;
    BoolMeans(Given(o, "enabled"), false, b.enabled);
    NumberMeans(codec, Given(o, "capacity_wh"), 0.0, 100000.0, true, 1000.0, b.capacity);
    NumberMeans(codec, Given(o, "state_of_charge_percent"), 0.0, 100.0, false, 100.0, b.charge);
    NumberMeans(codec, Given(o, "reserve_percent"), 0.0, 95.0, false, 10.0, b.reserve);
    NumberMeans(codec, Given(o, "conversion_efficiency_percent"), 1.0, 100.0, false, 90.0, b.efficiency);
    TimeMeans(codec, Given(o, "state_of_charge_updated_at"), b.chargedAt);
  }

  lemma NumbersMean(codec: Codec, doc: Document, o: map<string, string>, n: Numbers)
    requires OptionsAt(doc, Key("alerts", "")) == o
    ensures LoadNumbers(codec, ReaderOf(doc)) == Some(n) <==>
            && IntIs(Given(o, "outage_started_secs"), 1, YEAR, 30, n.outage)
            && IntIs(Given(o, "dish_unreachable_secs"), 1, YEAR, 60, n.unreachable)
            && IntIs(Given(o, "path_clear_secs"), 1, YEAR, 300, n.clear)
            && RealIs(codec, Given(o, "path_loss_percent"), 0.0, 100.0, 0.01, 0.2, n.loss)
            && RealIs(codec, Given(o, "path_rtt_ms"), 0.0, 60000.0, 1.0, 300.0, n.rtt)
            && RealIs(codec, Given(o, "obstruction_percent"), 0.0, 100.0, 0.01, 0.02, n.obstruction)
  {
    HoldTexts(doc, o);
    LevelTexts(doc, o);
    NumbersReadLoad(codec, ReaderOf(doc), n);
    hide LoadNumbers, Text, Given, ReadInt, ReadFloat, IntIs, RealIs;
    IntMeans(Given(o, "outage_started_secs"), 1, YEAR, 30, n.outage);
    IntMeans(Given(o, "dish_unreachable_secs"), 1, YEAR, 60, n.unreachable);
    IntMeans(Given(o, "path_clear_secs"), 1, YEAR, 300, n.clear);
    RealMeans(codec, Given(o, "path_loss_percent"), 0.0, 100.0, 0.01, 0.2, n.loss);
    RealMeans(codec, Given(o, "path_rtt_ms"), 0.0, 60000.0, 1.0, 300.0, n.rtt);
    RealMeans(codec, Given(o, "obstruction_percent"), 0.0, 100.0, 0.01, 0.02, n.obstruction);
  }

  lemma CatalogTwelve(names: set<AlertName>)
    ensures Twelve(names) <==> names == set n | n in CATALOG
  {
  }

  lemma CatalogListed()
    ensures forall n :: n in CATALOG ==> !n.Unlisted?
  {
  }

  /** The numbers that a set of rules holds. */
  function NumbersOf(rules: map<AlertName, Rule>): Numbers
    requires OutageStarted in rules && DishUnreachable in rules && PathDegraded in rules && ObstructionHigh in rules
  {
    Numbers(rules[OutageStarted].hold, rules[DishUnreachable].hold, rules[PathDegraded].clearHold,
            rules[PathDegraded].threshold, rules[PathDegraded].threshold2, rules[ObstructionHigh].threshold)
  }

  lemma RuleLoaded(codec: Codec, doc: Document, o: map<string, string>, name: AlertName, rule: Rule, n: Numbers)
    requires OptionsAt(doc, Key("alerts", "")) == o && LoadNumbers(codec, ReaderOf(doc)) == Some(n) && !name.Unlisted?
    ensures LoadEnabled(ReaderOf(doc), name).Some? && rule == LoadedRule(name, LoadEnabled(ReaderOf(doc), name).value, n)
       <==> RuleMeans(codec, o, name, rule)
  {
    NumbersMean(codec, doc, o, n);
    FlagText(doc, o, name);
    BoolMeans(Given(o, FlagOption(name)), true, rule.enabled);
    hide Given, Text, FlagOption, ReadBool, BoolIs, LoadNumbers;
    hide Atoi;
  }

  lemma RulesLoadedMean(codec: Codec, doc: Document, o: map<string, string>, rules: map<AlertName, Rule>, n: Numbers)
    requires OptionsAt(doc, Key("alerts", "")) == o && LoadNumbers(codec, ReaderOf(doc)) == Some(n)
    requires rules.Keys == set n | n in CATALOG
    ensures RulesRead(ReaderOf(doc), rules, n) <==> RulesMean(codec, o, rules)
  {
    CatalogListed();
    hide LoadNumbers, LoadEnabled, LoadedRule, RuleMeans, Text, Given, CATALOG, OptionsAt;
    forall name | name in rules
      ensures LoadEnabled(ReaderOf(doc), name).Some? && rules[name] == LoadedRule(name, LoadEnabled(ReaderOf(doc), name).value, n)
         <==> RuleMeans(codec, o, name, rules[name])
    {
      RuleLoaded(codec, doc, o, name, rules[name], n);
    }
  }

  lemma AlertSectionLoaded(codec: Codec, doc: Document, o: map<string, string>, a: Alerts)
    requires OptionsAt(doc, Key("alerts", "")) == o
    ensures LoadRules(codec, ReaderOf(doc)) == Some(a.rules) && a.webhookUrl == Text(doc, WebhookUrl) && a.ntfyUrl == Text(doc, NtfyUrl)
       <==> AlertsMean(codec, o, a)
  {
    UrlTexts(doc, o);
    CatalogTwelve(a.rules.Keys);
    RulesReadLoad(codec, ReaderOf(doc), a.rules);
    if LoadNumbers(codec, ReaderOf(doc)).Some? && Twelve(a.rules.Keys) {
      RulesLoadedMean(codec, doc, o, a.rules, LoadNumbers(codec, ReaderOf(doc)).value);
    } else if AlertsMean(codec, o, a) {
      RulesTellNumbers(codec, doc, o, a.rules);
    }
    hide LoadRules, LoadNumbers, RulesMean, Text, Given, CATALOG;
  }

  /** Rules that are as the file says can only be so when its numbers are readable. */
  lemma RulesTellNumbers(codec: Codec, doc: Document, o: map<string, string>, rules: map<AlertName, Rule>)
    requires OptionsAt(doc, Key("alerts", "")) == o
    requires Twelve(rules.Keys) && RulesMean(codec, o, rules)
    ensures LoadNumbers(codec, ReaderOf(doc)).Some?
  {
    assert OutageStarted in rules && DishUnreachable in rules && PathDegraded in rules && ObstructionHigh in rules;
    hide Twelve, LoadNumbers, BoolIs, Given, FlagOption, LevelsMean;
    assert LevelsMean(codec, o, OutageStarted, rules[OutageStarted]) && LevelsMean(codec, o, DishUnreachable, rules[DishUnreachable]);
    assert LevelsMean(codec, o, PathDegraded, rules[PathDegraded]) && LevelsMean(codec, o, ObstructionHigh, rules[ObstructionHigh]);
    hide RulesMean, RuleMeans;
    LevelsTell(codec, o, rules);
    NumbersMean(codec, doc, o, NumbersOf(rules));
  }

  lemma LevelsTell(codec: Codec, o: map<string, string>, rules: map<AlertName, Rule>)
    requires OutageStarted in rules && DishUnreachable in rules && PathDegraded in rules && ObstructionHigh in rules
    requires LevelsMean(codec, o, OutageStarted, rules[OutageStarted]) && LevelsMean(codec, o, DishUnreachable, rules[DishUnreachable])
    requires LevelsMean(codec, o, PathDegraded, rules[PathDegraded]) && LevelsMean(codec, o, ObstructionHigh, rules[ObstructionHigh])
    ensures var n := NumbersOf(rules);
            && IntIs(Given(o, "outage_started_secs"), 1, YEAR, 30, n.outage)
            && IntIs(Given(o, "dish_unreachable_secs"), 1, YEAR, 60, n.unreachable)
            && IntIs(Given(o, "path_clear_secs"), 1, YEAR, 300, n.clear)
            && RealIs(codec, Given(o, "path_loss_percent"), 0.0, 100.0, 0.01, 0.2, n.loss)
            && RealIs(codec, Given(o, "path_rtt_ms"), 0.0, 60000.0, 1.0, 300.0, n.rtt)
            && RealIs(codec, Given(o, "obstruction_percent"), 0.0, 100.0, 0.01, 0.02, n.obstruction)
  {
    hide IntIs, RealIs, Given;
  }

  /** What a file means, field by field, over its four sections: a text is loaded as a configuration if and only if
      every field is the text of its own option, or its default when the option is missing or empty, and every
      value is in its range. */
  lemma LoadedMeans(codec: Codec, doc: Document, main: map<string, string>, history: map<string, string>,
                    alerts: map<string, string>, battery: map<string, string>, cfg: Config)
    requires Sections(doc, main, history, alerts, battery)
    ensures LoadFrom(codec, ReaderOf(doc)) == Some(cfg)
       <==> MainMeans(main, cfg) && HistoryMeans(history, cfg.history) && AlertsMean(codec, alerts, cfg.alerts)
            && BatteryMeans(codec, battery, cfg.battery)
  {
    SectionOptions(doc, "starwatch", "main", main);
    SectionOptions(doc, "history", "", history);
    SectionOptions(doc, "alerts", "", alerts);
    SectionOptions(doc, "battery", "", battery);
    ConfigReadLoad(codec, ReaderOf(doc), cfg);
    MainLoaded(doc, main, cfg);
    HistorySectionLoaded(doc, history, cfg.history);
    AlertSectionLoaded(codec, doc, alerts, cfg.alerts);
    BatterySectionLoaded(codec, doc, battery, cfg.battery);
    hide SectionIs, OptionsAt, LoadFrom, LoadHistory, LoadRules, LoadBattery, FixedRead, MainRead, Text;
    hide MainMeans, HistoryMeans, AlertsMean, BatteryMeans;
  }
}
