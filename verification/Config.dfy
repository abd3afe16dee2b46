/** The daemon's configuration and how it is loaded from UCI text. Durations are whole seconds, as the
    text holds them; floating-point settings are reals. */
module Config {
  import opened Basics
  import opened Uci
  import opened UciTheorems
  import opened ConfigText

  datatype Rule = Rule(enabled: bool, threshold: real, threshold2: real, hold: int, clearHold: int)

  datatype History = History(ramHours: int, minuteDays: int, quarterDays: int, dbPath: string, flushSecs: int)

  datatype Alerts = Alerts(webhookUrl: string, ntfyUrl: string, rules: map<AlertName, Rule>)

  datatype Battery = Battery(enabled: bool, capacity: real, charge: real, reserve: real, efficiency: real, chargedAt: int)

  datatype Config = Config(
    listen: string, port: int, token: string, dishAddr: string, pollStatus: int, pollMap: int,
    wanInterface: string, probeHosts: seq<string>, probeInterval: int, locationEnabled: bool,
    manageDishRoute: bool, history: History, alerts: Alerts, battery: Battery)

  /** The catalog's alert names, and any other name a request may carry. */
  datatype AlertName =
    | OutageStarted | DishUnreachable | PathDegraded | ObstructionHigh | ThermalThrottle | ThermalShutdown
    | MotorsStuck | WaterDetected | MastNotVertical | SlowEthernet | FirmwarePending | FailoverEvent
    | Unlisted(text: string)
  {
    function Text(): string {
      match this
      case OutageStarted => "outage_started"
      case DishUnreachable => "dish_unreachable"
      case PathDegraded => "path_degraded"
      case ObstructionHigh => "obstruction_high"
      case ThermalThrottle => "thermal_throttle"
      case ThermalShutdown => "thermal_shutdown"
      case MotorsStuck => "motors_stuck"
      case WaterDetected => "water_detected"
      case MastNotVertical => "mast_not_vertical"
      case SlowEthernet => "slow_ethernet"
      case FirmwarePending => "firmware_pending"
      case FailoverEvent => "failover_event"
      case Unlisted(text) => text
    }
  }

  const CATALOG: seq<AlertName> := [
    OutageStarted, DishUnreachable, PathDegraded, ObstructionHigh, ThermalThrottle, ThermalShutdown,
    MotorsStuck, WaterDetected, MastNotVertical, SlowEthernet, FirmwarePending, FailoverEvent]

  /** Every option the configuration is read from. */
  datatype Setting =
    | Listen | Token | DishAddr | WanIface | ProbeHosts | Port | PollStatus | PollMap | ProbeInterval
    | LocationEnabled | ManageDishRoute
    | RamHours | MinuteDays | QuarterDays | DbPath | FlushSecs
    | WebhookUrl | NtfyUrl | RuleEnabled(name: AlertName)
    | OutageHold | UnreachableHold | PathClear | PathLoss | PathRtt | Obstruction
    | BatteryEnabled | Capacity | Charge | ChargedAt | Reserve | Efficiency

  /** The four sections, in the order in which requests are applied. */
  datatype Part = MainPart | HistoryPart | AlertsPart | BatteryPart {
    function Rank(): nat { match this case MainPart => 0 case HistoryPart => 1 case AlertsPart => 2 case BatteryPart => 3 }

    function Key(): Uci.Key {
      match this
      case MainPart => Uci.Key.Key("starwatch", "main")
      case HistoryPart => Uci.Key.Key("history", "")
      case AlertsPart => Uci.Key.Key("alerts", "")
      case BatteryPart => Uci.Key.Key("battery", "")
    }
  }

  function PartOf(s: Setting): Part {
    match s
    case Listen | Token | DishAddr | WanIface | ProbeHosts | Port | PollStatus | PollMap | ProbeInterval
      | LocationEnabled | ManageDishRoute => MainPart
    case RamHours | MinuteDays | QuarterDays | DbPath | FlushSecs => HistoryPart
    case WebhookUrl | NtfyUrl | RuleEnabled(_) | OutageHold | UnreachableHold | PathClear | PathLoss
      | PathRtt | Obstruction => AlertsPart
    case BatteryEnabled | Capacity | Charge | ChargedAt | Reserve | Efficiency => BatteryPart
  }

  function OptionOf(s: Setting): string {
    match s
    case Listen => "listen"
    case Token => "token"
    case DishAddr => "dish_addr"
    case WanIface => "wan_iface"
    case ProbeHosts => "probe_hosts"
    case Port => "port"
    case PollStatus => "poll_status"
    case PollMap => "poll_map"
    case ProbeInterval => "probe_interval"
    case LocationEnabled => "location_enabled"
    case ManageDishRoute => "manage_dish_route"
    case RamHours => "ram_hours"
    case MinuteDays => "minute_days"
    case QuarterDays => "quarter_days"
    case DbPath => "db_path"
    case FlushSecs => "flush_secs"
    case WebhookUrl => "webhook_url"
    case NtfyUrl => "ntfy_url"
    case RuleEnabled(name) => name.Text() + "_enabled"
    case OutageHold => "outage_started_secs"
    case UnreachableHold => "dish_unreachable_secs"
    case PathClear => "path_clear_secs"
    case PathLoss => "path_loss_percent"
    case PathRtt => "path_rtt_ms"
    case Obstruction => "obstruction_percent"
    case BatteryEnabled => "enabled"
    case Capacity => "capacity_wh"
    case Charge => "state_of_charge_percent"
    case ChargedAt => "state_of_charge_updated_at"
    case Reserve => "reserve_percent"
    case Efficiency => "conversion_efficiency_percent"
  }

  /** The text of a setting; a missing section or option reads as the empty string. */
  function Text(doc: Document, s: Setting): string {
    var options := OptionsAt(doc, PartOf(s).Key());
    if OptionOf(s) in options then options[OptionOf(s)] else ""
  }

  /** How the loader sees a document: the text of each setting. */
  type Reader = Setting -> string

  function ReaderOf(doc: Document): Reader { s => Text(doc, s) }

  // ---------------------------------------------------------------- reading one value

  const YEAR_SECONDS := 365 * 24 * 60 * 60

  function ReadText(value: string, current: string): string { if value == "" then current else value }

  function ReadHosts(value: string, current: seq<string>): seq<string> {
    if value == "" then current else Fields(value)
  }

  function ReadInt(value: string, min: int, max: int, current: int): Option<int> {
    if value == "" then Some(current)
    else match Atoi(value)
      case Some(n) => if min <= n <= max then Some(n) else None
      case None => None
  }

  function ReadSeconds(value: string, current: int): Option<int> { ReadInt(value, 1, YEAR_SECONDS, current) }

  function ReadBool(value: string, current: bool): Option<bool> {
    if value == "" then Some(current) else ParseBool(value)
  }

  function ReadFloat(codec: Codec, value: string, min: real, max: real, scale: real, current: real): Option<real> {
    if value == "" then Some(current)
    else match codec.parseFloat(value)
      case Some(x) => if x < min || x > max then None else Some(x * scale)
      case None => None
  }

  function ReadBattery(codec: Codec, value: string, min: real, max: real, exclusiveMin: bool, current: real): Option<real> {
    if value == "" then Some(current)
    else match codec.parseFloat(value)
      case Some(x) => if x < min || (exclusiveMin && x <= min) || x > max then None else Some(x)
      case None => None
  }

  function ReadTime(codec: Codec, value: string, current: int): Option<int> {
    if value == "" then Some(current) else codec.parseTime(value)
  }

  // ---------------------------------------------------------------- the whole configuration

  function DefaultRule(name: AlertName): Rule {
    match name
    case OutageStarted => Rule(true, 0.0, 0.0, 30, 0)
    case DishUnreachable => Rule(true, 0.0, 0.0, 60, 0)
    case PathDegraded => Rule(true, 0.2, 300.0, 0, 300)
    case ObstructionHigh => Rule(true, 0.02, 0.0, 0, 0)
    case _ => Rule(true, 0.0, 0.0, 0, 0)
  }

  function DefaultRules(): map<AlertName, Rule> { map n | n in CATALOG :: DefaultRule(n) }

  function Defaults(): Config {
    Config(
      "0.0.0.0", 9633, "", "192.168.100.1:9200", 1, 900, "", ["1.1.1.1", "8.8.8.8"], 2, false, true,
      History(1, 7, 30, "/etc/starwatch/history.db", 300),
      Alerts("", "", DefaultRules()),
      Battery(false, 1000.0, 100.0, 10.0, 90.0, 0))
  }

  function LoadHistory(get: Reader): Option<History> {
    var ram :- ReadInt(get(RamHours), 1, 24 * 365, 1);
    var minute :- ReadInt(get(MinuteDays), 1, 3650, 7);
    var quarter :- ReadInt(get(QuarterDays), 1, 3650, 30);
    var flush :- ReadSeconds(get(FlushSecs), 300);
    Some(History(ram, minute, quarter, ReadText(get(DbPath), "/etc/starwatch/history.db"), flush))
  }

  function LoadEnabled(get: Reader, name: AlertName): Option<bool> {
    ReadBool(get(RuleEnabled(name)), true)
  }

  /** The six numeric alert settings. */
  datatype Numbers = Numbers(outage: int, unreachable: int, clear: int, loss: real, rtt: real, obstruction: real)

  function LoadNumbers(codec: Codec, get: Reader): Option<Numbers> {
    var outage :- ReadSeconds(get(OutageHold), 30);
    var unreachable :- ReadSeconds(get(UnreachableHold), 60);
    var clear :- ReadSeconds(get(PathClear), 300);
    var loss :- ReadFloat(codec, get(PathLoss), 0.0, 100.0, 0.01, 0.2);
    var rtt :- ReadFloat(codec, get(PathRtt), 0.0, 60000.0, 1.0, 300.0);
    var obstruction :- ReadFloat(codec, get(Obstruction), 0.0, 100.0, 0.01, 0.02);
    Some(Numbers(outage, unreachable, clear, loss, rtt, obstruction))
  }

  predicate FlagsReadable(get: Reader) {
    forall n :: n in CATALOG ==> LoadEnabled(get, n).Some?
  }

  function LoadRules(codec: Codec, get: Reader): Option<map<AlertName, Rule>> {
    if !FlagsReadable(get) then None
    else
      var numbers :- LoadNumbers(codec, get);
      Some(map n | n in CATALOG :: LoadedRule(n, LoadEnabled(get, n).value, numbers))
  }

  function LoadedRule(name: AlertName, enabled: bool, numbers: Numbers): Rule {
    match name
    case OutageStarted => Rule(enabled, 0.0, 0.0, numbers.outage, 0)
    case DishUnreachable => Rule(enabled, 0.0, 0.0, numbers.unreachable, 0)
    case PathDegraded => Rule(enabled, numbers.loss, numbers.rtt, 0, numbers.clear)
    case ObstructionHigh => Rule(enabled, numbers.obstruction, 0.0, 0, 0)
    case _ => Rule(enabled, 0.0, 0.0, 0, 0)
  }

  function LoadBattery(codec: Codec, get: Reader): Option<Battery> {
    var enabled :- ReadBool(get(BatteryEnabled), false);
    var capacity :- ReadBattery(codec, get(Capacity), 0.0, 100000.0, true, 1000.0);
    var charge :- ReadBattery(codec, get(Charge), 0.0, 100.0, false, 100.0);
    var reserve :- ReadBattery(codec, get(Reserve), 0.0, 95.0, false, 10.0);
    var efficiency :- ReadBattery(codec, get(Efficiency), 1.0, 100.0, false, 90.0);
    var at :- ReadTime(codec, get(ChargedAt), 0);
    Some(Battery(enabled, capacity, charge, reserve, efficiency, at))
  }

  function LoadFrom(codec: Codec, get: Reader): Option<Config> {
    var port :- ReadInt(get(Port), 1, 65535, 9633);
    var pollStatus :- ReadSeconds(get(PollStatus), 1);
    var pollMap :- ReadSeconds(get(PollMap), 900);
    var probeInterval :- ReadSeconds(get(ProbeInterval), 2);
    var location :- ReadBool(get(LocationEnabled), false);
    var manage :- ReadBool(get(ManageDishRoute), true);
    var history :- LoadHistory(get);
    var rules :- LoadRules(codec, get);
    var battery :- LoadBattery(codec, get);
    Some(Config(
      ReadText(get(Listen), "0.0.0.0"), port, ReadText(get(Token), ""),
      ReadText(get(DishAddr), "192.168.100.1:9200"), pollStatus, pollMap, get(WanIface),
      ReadHosts(get(ProbeHosts), ["1.1.1.1", "8.8.8.8"]), probeInterval, location, manage,
      history, Alerts(get(WebhookUrl), get(NtfyUrl), rules), battery))
  }

  /** Loading a text: None when it does not parse or a value is out of range. */
  function Load(codec: Codec, source: string): Option<Config> {
    match Parse(source)
    case Parsed(doc) => LoadFrom(codec, ReaderOf(doc))
    case Rejected(_, _) => None
  }

  // ---------------------------------------------------------------- the loader

  /** The loader: defaults, overwritten section by section, giving up at the first bad value. */
  method LoadConfig(codec: Codec, source: string) returns (result: Option<Config>)
    ensures result == Load(codec, source)
  {
    var parsed := ParseUCI(source);
    if parsed.Rejected? {
      return None;
    }
    var get := ReaderOf(parsed.doc);
    var cfg := Defaults();
    cfg := cfg.(listen := ReadText(get(Listen), cfg.listen), token := ReadText(get(Token), cfg.token),
                dishAddr := ReadText(get(DishAddr), cfg.dishAddr), wanInterface := get(WanIface),
                probeHosts := ReadHosts(get(ProbeHosts), cfg.probeHosts));
    var port :- ReadInt(get(Port), 1, 65535, cfg.port);
    var pollStatus :- ReadSeconds(get(PollStatus), cfg.pollStatus);
    var pollMap :- ReadSeconds(get(PollMap), cfg.pollMap);
    var probeInterval :- ReadSeconds(get(ProbeInterval), cfg.probeInterval);
    var location :- ReadBool(get(LocationEnabled), cfg.locationEnabled);
    var manage :- ReadBool(get(ManageDishRoute), cfg.manageDishRoute);
    cfg := cfg.(port := port, pollStatus := pollStatus, pollMap := pollMap, probeInterval := probeInterval,
                locationEnabled := location, manageDishRoute := manage);
    var history :- LoadHistory(get);
    cfg := cfg.(history := history);
    cfg := cfg.(alerts := cfg.alerts.(webhookUrl := get(WebhookUrl), ntfyUrl := get(NtfyUrl)));
    var rules := LoadAlertRules(codec, get, cfg.alerts.rules);
    if rules.None? {
      return None;
    }
    cfg := cfg.(alerts := cfg.alerts.(rules := rules.value));
    var battery :- LoadBattery(codec, get);
    cfg := cfg.(battery := battery);
    result := Some(cfg);
  }

  /** The names so far have their flags, and every other rule is as it was. */
  ghost predicate FlagsUpTo(get: Reader, defaults: map<AlertName, Rule>, names: seq<AlertName>, rules: map<AlertName, Rule>) {
    && rules.Keys == defaults.Keys
    && forall n :: n in defaults ==>
         if n in names then LoadEnabled(get, n).Some? && rules[n] == defaults[n].(enabled := LoadEnabled(get, n).value)
         else rules[n] == defaults[n]
  }

  lemma FlagsNext(get: Reader, defaults: map<AlertName, Rule>, names: seq<AlertName>, rules: map<AlertName, Rule>, name: AlertName)
    requires FlagsUpTo(get, defaults, names, rules) && name in defaults && LoadEnabled(get, name).Some?
    ensures FlagsUpTo(get, defaults, names + [name], rules[name := defaults[name].(enabled := LoadEnabled(get, name).value)])
  {
    hide LoadEnabled;
  }

  lemma FlagsDone(get: Reader, defaults: map<AlertName, Rule>, names: seq<AlertName>, rules: map<AlertName, Rule>)
    requires FlagsUpTo(get, defaults, names, rules) && forall n :: n in names ==> n in defaults
    ensures rules.Keys == defaults.Keys
    ensures forall n :: n in names ==>
              LoadEnabled(get, n).Some? && rules[n] == defaults[n].(enabled := LoadEnabled(get, n).value)
  {
    hide LoadEnabled;
  }

  /** One enabled flag for each catalog name. */
  method LoadFlags(get: Reader, defaults: map<AlertName, Rule>) returns (result: Option<map<AlertName, Rule>>)
    requires forall n :: n in CATALOG ==> n in defaults
    ensures result.Some? <==> FlagsReadable(get)
    ensures result.Some? ==> result.value.Keys == defaults.Keys
    ensures result.Some? ==> forall n :: n in CATALOG ==>
              LoadEnabled(get, n).Some? && result.value[n] == defaults[n].(enabled := LoadEnabled(get, n).value)
  {
    var names := CATALOG;
    var rules := defaults;
    assert FlagsUpTo(get, defaults, names[..0], rules);
    hide FlagsUpTo, ReadBool;
    for i := 0 to |names|
      invariant FlagsUpTo(get, defaults, names[..i], rules)
    {
      var name := names[i];
      assert names[..i + 1] == names[..i] + [name] && name in CATALOG;
      var enabled := ReadBool(get(RuleEnabled(name)), true);
      assert enabled == LoadEnabled(get, name);
      if enabled.None? {
        return None;
      }
      FlagsNext(get, defaults, names[..i], rules, name);
      rules := rules[name := defaults[name].(enabled := enabled.value)];
    }
    assert names[..|names|] == names;
    FlagsDone(get, defaults, names, rules);
    result := Some(rules);
  }

  lemma CatalogNames()
    ensures OutageStarted in CATALOG && DishUnreachable in CATALOG
    ensures PathDegraded in CATALOG && ObstructionHigh in CATALOG
  {
    assert CATALOG[0] == OutageStarted && CATALOG[1] == DishUnreachable;
    assert CATALOG[2] == PathDegraded && CATALOG[3] == ObstructionHigh;
  }

  method LoadNumeric(codec: Codec, get: Reader, flags: map<AlertName, Rule>) returns (result: Option<map<AlertName, Rule>>)
    requires OutageStarted in flags && flags[OutageStarted].hold == 30
    requires DishUnreachable in flags && flags[DishUnreachable].hold == 60
    requires PathDegraded in flags && flags[PathDegraded].clearHold == 300
    requires flags[PathDegraded].threshold == 0.2 && flags[PathDegraded].threshold2 == 300.0
    requires ObstructionHigh in flags && flags[ObstructionHigh].threshold == 0.02
    ensures result.Some? <==> LoadNumbers(codec, get).Some?
    ensures result.Some? ==> result.value == WithNumbers(flags, LoadNumbers(codec, get).value)
  {
    var rules := flags;
    var outage :- ReadSeconds(get(OutageHold), rules[OutageStarted].hold);
    rules := rules[OutageStarted := rules[OutageStarted].(hold := outage)];
    var unreachable :- ReadSeconds(get(UnreachableHold), rules[DishUnreachable].hold);
    rules := rules[DishUnreachable := rules[DishUnreachable].(hold := unreachable)];
    var clear :- ReadSeconds(get(PathClear), rules[PathDegraded].clearHold);
    rules := rules[PathDegraded := rules[PathDegraded].(clearHold := clear)];
    var loss :- ReadFloat(codec, get(PathLoss), 0.0, 100.0, 0.01, rules[PathDegraded].threshold);
    var rtt :- ReadFloat(codec, get(PathRtt), 0.0, 60000.0, 1.0, rules[PathDegraded].threshold2);
    rules := rules[PathDegraded := rules[PathDegraded].(threshold := loss, threshold2 := rtt)];
    var obstruction :- ReadFloat(codec, get(Obstruction), 0.0, 100.0, 0.01, rules[ObstructionHigh].threshold);
    rules := rules[ObstructionHigh := rules[ObstructionHigh].(threshold := obstruction)];
    result := Some(rules);
  }

  /** A rule with the numeric settings in the fields they belong to. */
  function WithNumbersOne(name: AlertName, rule: Rule, numbers: Numbers): Rule {
    match name
    case OutageStarted => rule.(hold := numbers.outage)
    case DishUnreachable => rule.(hold := numbers.unreachable)
    case PathDegraded => rule.(threshold := numbers.loss, threshold2 := numbers.rtt, clearHold := numbers.clear)
    case ObstructionHigh => rule.(threshold := numbers.obstruction)
    case _ => rule
  }

  function WithNumbers(flags: map<AlertName, Rule>, numbers: Numbers): map<AlertName, Rule> {
    map n | n in flags :: WithNumbersOne(n, flags[n], numbers)
  }

  lemma OverwrittenDefault(name: AlertName, enabled: bool, numbers: Numbers)
    ensures WithNumbersOne(name, DefaultRule(name).(enabled := enabled), numbers) == LoadedRule(name, enabled, numbers)
  {
  }

  method LoadAlertRules(codec: Codec, get: Reader, defaults: map<AlertName, Rule>) returns (result: Option<map<AlertName, Rule>>)
    requires defaults == DefaultRules()
    ensures result == LoadRules(codec, get)
  {
    hide LoadEnabled, LoadNumbers, DefaultRule, LoadRules, FlagsReadable, WithNumbers;
    DefaultsListed();
    var flags := LoadFlags(get, defaults);
    if flags.None? {
      NoRules(codec, get);
      return None;
    }
    DefaultNumbers(get, flags.value);
    NoRules(codec, get);
    result := LoadNumeric(codec, get, flags.value);
    if result.Some? {
      FlagsAndNumbers(codec, get, flags.value);
    }
  }

  lemma DefaultsListed()
    ensures DefaultRules().Keys == (set n | n in CATALOG) && forall n :: n in CATALOG ==> DefaultRules()[n] == DefaultRule(n)
  {
  }

  lemma NoRules(codec: Codec, get: Reader)
    ensures LoadRules(codec, get).Some? <==> FlagsReadable(get) && LoadNumbers(codec, get).Some?
  {
    hide FlagsReadable, LoadNumbers;
  }

  /** The rules the numeric settings are written into hold the default numbers. */
  lemma DefaultNumbers(get: Reader, flags: map<AlertName, Rule>)
    requires forall n :: n in CATALOG ==>
               n in flags && LoadEnabled(get, n).Some? && flags[n] == DefaultRule(n).(enabled := LoadEnabled(get, n).value)
    ensures OutageStarted in flags && flags[OutageStarted].hold == 30
    ensures DishUnreachable in flags && flags[DishUnreachable].hold == 60
    ensures PathDegraded in flags && flags[PathDegraded].clearHold == 300
    ensures flags[PathDegraded].threshold == 0.2 && flags[PathDegraded].threshold2 == 300.0
    ensures ObstructionHigh in flags && flags[ObstructionHigh].threshold == 0.02
  {
    CatalogNames();
    hide LoadEnabled;
  }

  lemma FlagsAndNumbers(codec: Codec, get: Reader, flags: map<AlertName, Rule>)
    requires FlagsReadable(get) && flags.Keys == DefaultRules().Keys && LoadNumbers(codec, get).Some?
    requires forall n :: n in CATALOG ==> flags[n] == DefaultRule(n).(enabled := LoadEnabled(get, n).value)
    ensures LoadRules(codec, get) == Some(WithNumbers(flags, LoadNumbers(codec, get).value))
  {
    var numbers := LoadNumbers(codec, get).value;
    forall n | n in CATALOG
      ensures LoadedRule(n, LoadEnabled(get, n).value, numbers) == WithNumbersOne(n, flags[n], numbers)
    {
      OverwrittenDefault(n, LoadEnabled(get, n).value, numbers);
    }
    RulesEqual(CATALOG, get, flags, numbers);
  }

  lemma RulesEqual(names: seq<AlertName>, get: Reader, flags: map<AlertName, Rule>, numbers: Numbers)
    requires flags.Keys == (set n | n in names) && forall n :: n in names ==> LoadEnabled(get, n).Some?
    requires forall n :: n in names ==> LoadedRule(n, LoadEnabled(get, n).value, numbers) == WithNumbersOne(n, flags[n], numbers)
    ensures (map n | n in names :: LoadedRule(n, LoadEnabled(get, n).value, numbers)) == WithNumbers(flags, numbers)
  {
  }
}
