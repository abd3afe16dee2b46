/** The option names: writable without quotes, and different for different settings. */
module ConfigNames {
  import opened GoStrings
  import opened UciLines
  import opened Config

  predicate IsWordChar(c: char) { 'a' <= c <= 'z' || c == '_' }

  predicate IsWord(s: string) { forall i :: 0 <= i < |s| ==> IsWordChar(s[i]) }

  lemma {:induction false} WordKeeps(s: string)
    requires IsWord(s)
    ensures ReplaceAll(s, "'\\''", "'") == s
  {
    if s != "" {
      WordKeeps(s[1..]);
      assert s[0] != "'\\''"[0];
      assert [s[0]] + s[1..] == s;
    }
  }

  lemma WordIsPlain(s: string)
    requires IsWord(s) && s != ""
    ensures PlainName(s)
  {
    WordKeeps(s);
  }

  predicate IsName(s: string) { IsWord(s) && s != "" }

  // One lemma for each name that is written.

  lemma OutageStartedName()
    ensures IsName("outage_started")
  {
  }

  lemma DishUnreachableName()
    ensures IsName("dish_unreachable")
  {
  }

  lemma PathDegradedName()
    ensures IsName("path_degraded")
  {
  }

  lemma ObstructionHighName()
    ensures IsName("obstruction_high")
  {
  }

  lemma ThermalThrottleName()
    ensures IsName("thermal_throttle")
  {
  }

  lemma ThermalShutdownName()
    ensures IsName("thermal_shutdown")
  {
  }

  lemma MotorsStuckName()
    ensures IsName("motors_stuck")
  {
  }

  lemma WaterDetectedName()
    ensures IsName("water_detected")
  {
  }

  lemma MastNotVerticalName()
    ensures IsName("mast_not_vertical")
  {
  }

  lemma SlowEthernetName()
    ensures IsName("slow_ethernet")
  {
  }

  lemma FirmwarePendingName()
    ensures IsName("firmware_pending")
  {
  }

  lemma FailoverEventName()
    ensures IsName("failover_event")
  {
  }

  lemma ListenName()
    ensures IsName("listen")
  {
  }

  lemma TokenName()
    ensures IsName("token")
  {
  }

  lemma DishAddrName()
    ensures IsName("dish_addr")
  {
  }

  lemma WanIfaceName()
    ensures IsName("wan_iface")
  {
  }

  lemma ProbeHostsName()
    ensures IsName("probe_hosts")
  {
  }

  lemma PortName()
    ensures IsName("port")
  {
  }

  lemma PollStatusName()
    ensures IsName("poll_status")
  {
  }

  lemma PollMapName()
    ensures IsName("poll_map")
  {
  }

  lemma ProbeIntervalName()
    ensures IsName("probe_interval")
  {
  }

  lemma LocationEnabledName()
    ensures IsName("location_enabled")
  {
  }

  lemma ManageDishRouteName()
    ensures IsName("manage_dish_route")
  {
  }

  lemma RamHoursName()
    ensures IsName("ram_hours")
  {
  }

  lemma MinuteDaysName()
    ensures IsName("minute_days")
  {
  }

  lemma QuarterDaysName()
    ensures IsName("quarter_days")
  {
  }

  lemma DbPathName()
    ensures IsName("db_path")
  {
  }

  lemma FlushSecsName()
    ensures IsName("flush_secs")
  {
  }

  lemma WebhookUrlName()
    ensures IsName("webhook_url")
  {
  }

  lemma NtfyUrlName()
    ensures IsName("ntfy_url")
  {
  }

  lemma OutageHoldName()
    ensures IsName("outage_started_secs")
  {
  }

  lemma UnreachableHoldName()
    ensures IsName("dish_unreachable_secs")
  {
  }

  lemma PathClearName()
    ensures IsName("path_clear_secs")
  {
  }

  lemma PathLossName()
    ensures IsName("path_loss_percent")
  {
  }

  lemma PathRttName()
    ensures IsName("path_rtt_ms")
  {
  }

  lemma ObstructionName()
    ensures IsName("obstruction_percent")
  {
  }

  lemma BatteryEnabledName()
    ensures IsName("enabled")
  {
  }

  lemma CapacityName()
    ensures IsName("capacity_wh")
  {
  }

  lemma ChargeName()
    ensures IsName("state_of_charge_percent")
  {
  }

  lemma ChargedAtName()
    ensures IsName("state_of_charge_updated_at")
  {
  }

  lemma ReserveName()
    ensures IsName("reserve_percent")
  {
  }

  lemma EfficiencyName()
    ensures IsName("conversion_efficiency_percent")
  {
  }

  lemma NameIsWord(name: AlertName)
    requires !name.Unlisted?
    ensures IsName(name.Text())
  {
    hide IsName;
    match name
    case OutageStarted => OutageStartedName();
    case DishUnreachable => DishUnreachableName();
    case PathDegraded => PathDegradedName();
    case ObstructionHigh => ObstructionHighName();
    case ThermalThrottle => ThermalThrottleName();
    case ThermalShutdown => ThermalShutdownName();
    case MotorsStuck => MotorsStuckName();
    case WaterDetected => WaterDetectedName();
    case MastNotVertical => MastNotVerticalName();
    case SlowEthernet => SlowEthernetName();
    case FirmwarePending => FirmwarePendingName();
    case FailoverEvent => FailoverEventName();
  }

  predicate Listed(s: Setting) { s.RuleEnabled? ==> !s.name.Unlisted? }

  lemma NamesJoin(a: string, b: string)
    requires IsName(a) && IsName(b)
    ensures IsName(a + b)
  {
  }

  lemma EnabledName()
    ensures IsName("_enabled")
  {
  }

  lemma OptionIsName(s: Setting)
    requires Listed(s)
    ensures IsName(OptionOf(s))
  {
    hide IsName;
    match s
    case RuleEnabled(name) =>
      NameIsWord(name);
      EnabledName();
      NamesJoin(name.Text(), "_enabled");
    case Listen => ListenName();
    case Token => TokenName();
    case DishAddr => DishAddrName();
    case WanIface => WanIfaceName();
    case ProbeHosts => ProbeHostsName();
    case Port => PortName();
    case PollStatus => PollStatusName();
    case PollMap => PollMapName();
    case ProbeInterval => ProbeIntervalName();
    case LocationEnabled => LocationEnabledName();
    case ManageDishRoute => ManageDishRouteName();
    case RamHours => RamHoursName();
    case MinuteDays => MinuteDaysName();
    case QuarterDays => QuarterDaysName();
    case DbPath => DbPathName();
    case FlushSecs => FlushSecsName();
    case WebhookUrl => WebhookUrlName();
    case NtfyUrl => NtfyUrlName();
    case OutageHold => OutageHoldName();
    case UnreachableHold => UnreachableHoldName();
    case PathClear => PathClearName();
    case PathLoss => PathLossName();
    case PathRtt => PathRttName();
    case Obstruction => ObstructionName();
    case BatteryEnabled => BatteryEnabledName();
    case Capacity => CapacityName();
    case Charge => ChargeName();
    case ChargedAt => ChargedAtName();
    case Reserve => ReserveName();
    case Efficiency => EfficiencyName();
  }

  lemma OptionIsWord(s: Setting)
    requires Listed(s)
    ensures IsWord(OptionOf(s)) && OptionOf(s) != ""
  {
    OptionIsName(s);
    hide OptionOf;
  }

  /** Enough of a name to tell the options of one section apart. */
  function Mark(s: string): (nat, char, char)
    requires s != ""
  {
    (|s|, s[0], s[|s| - 1])
  }

  lemma MainDiffer(a: Setting, b: Setting)
    requires PartOf(a) == PartOf(b) == MainPart && OptionOf(a) == OptionOf(b)
    ensures a == b
  {
    assert Mark(OptionOf(a)) == Mark(OptionOf(b)) && OptionOf(a)[1] == OptionOf(b)[1];
  }

  lemma HistoryDiffer(a: Setting, b: Setting)
    requires PartOf(a) == PartOf(b) == HistoryPart && OptionOf(a) == OptionOf(b)
    ensures a == b
  {
    assert Mark(OptionOf(a)) == Mark(OptionOf(b));
  }

  lemma BatteryDiffer(a: Setting, b: Setting)
    requires PartOf(a) == PartOf(b) == BatteryPart && OptionOf(a) == OptionOf(b)
    ensures a == b
  {
    assert Mark(OptionOf(a)) == Mark(OptionOf(b));
  }

  lemma AlertsDiffer(a: Setting, b: Setting)
    requires PartOf(a) == PartOf(b) == AlertsPart && Listed(a) && Listed(b) && OptionOf(a) == OptionOf(b)
    ensures a == b
  {
    var s, t := OptionOf(a), OptionOf(b);
    if a.RuleEnabled? && b.RuleEnabled? {
      assert s[..|s| - 8] == a.name.Text() && t[..|t| - 8] == b.name.Text();
      NamesDiffer(a.name, b.name);
    } else if a.RuleEnabled? {
      RuleEnding(a);
      OtherEndings(b);
    } else if b.RuleEnabled? {
      RuleEnding(b);
      OtherEndings(a);
    } else {
      OtherAlertsDiffer(a, b);
    }
  }

  lemma RuleEnding(s: Setting)
    requires s.RuleEnabled?
    ensures OptionOf(s) != "" && OptionOf(s)[|OptionOf(s)| - 1] == 'd'
  {
  }

  lemma OtherEndings(s: Setting)
    requires PartOf(s) == AlertsPart && !s.RuleEnabled?
    ensures OptionOf(s) != "" && OptionOf(s)[|OptionOf(s)| - 1] != 'd'
  {
  }

  lemma OtherAlertsDiffer(a: Setting, b: Setting)
    requires PartOf(a) == PartOf(b) == AlertsPart && !a.RuleEnabled? && !b.RuleEnabled? && OptionOf(a) == OptionOf(b)
    ensures a == b
  {
    assert Mark(OptionOf(a)) == Mark(OptionOf(b));
  }

  /** Different settings of one section have different option names. */
  lemma OptionsDiffer(a: Setting, b: Setting)
    requires PartOf(a) == PartOf(b) && Listed(a) && Listed(b) && OptionOf(a) == OptionOf(b)
    ensures a == b
  {
    match PartOf(a)
    case MainPart => MainDiffer(a, b);
    case HistoryPart => HistoryDiffer(a, b);
    case AlertsPart => AlertsDiffer(a, b);
    case BatteryPart => BatteryDiffer(a, b);
  }

  lemma PartKeysDiffer(p: Part, q: Part)
    requires p.Key() == q.Key()
    ensures p == q
  {
    assert p.Key().typ[0] == q.Key().typ[0];
  }

  lemma StarwatchName()
    ensures IsName("starwatch")
  {
  }

  lemma HistoryName()
    ensures IsName("history")
  {
  }

  lemma AlertsName()
    ensures IsName("alerts")
  {
  }

  lemma BatteryName()
    ensures IsName("battery")
  {
  }

  lemma TypeIsWord(p: Part)
    ensures IsName(p.Key().typ)
  {
    hide IsName;
    match p
    case MainPart => StarwatchName();
    case AlertsPart => AlertsName();
    case HistoryPart => HistoryName();
    case BatteryPart => BatteryName();
  }

  lemma KeyIsPlain(p: Part)
    ensures PlainName(p.Key().typ) && '\n' !in p.Key().name
  {
    TypeIsWord(p);
    hide IsWord;
    WordIsPlain(p.Key().typ);
  }

  lemma NamesDiffer(a: AlertName, b: AlertName)
    requires !a.Unlisted? && !b.Unlisted? && a.Text() == b.Text()
    ensures a == b
  {
    var s, t := a.Text(), b.Text();
    assert |s| == |t| && s[0] == t[0] && s[|s| - 1] == t[|t| - 1];
  }
}
