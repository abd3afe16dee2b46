/** What an accepted request leaves in the file, by the file's own words: which option of which section gets which
    text, and that no other option changes. */
module ConfigWrites {
  import opened Basics
  import opened Uci
  import opened UciRewriting
  import opened UciTheorems
  import opened ConfigText
  import opened Config
  import opened ConfigNames
  import opened ConfigManager
  import opened ConfigChanges
  import opened ConfigFile
  import opened ConfigRuns

  // ---------------------------------------------------------------- what a request asks for

  predicate IntAsked(x: Option<int>, text: string) { x.Some? && text == Itoa(x.value) }

  predicate BoolAsked(x: Option<bool>, text: string) { x.Some? && text == if x.value then "true" else "false" }

  predicate RealAsked(codec: Codec, x: Option<real>, scale: real, text: string) {
    x.Some? && text == codec.formatFloat(x.value * scale)
  }

  predicate MainAsks(u: MainUpdate, option: string, text: string) {
    || (option == "poll_map" && IntAsked(u.pollMap, text))
    || (option == "probe_interval" && IntAsked(u.probeInterval, text))
    || (option == "probe_hosts" && u.probeHosts.Some? && text == JoinSpaces(u.probeHosts.value))
    || (option == "location_enabled" && BoolAsked(u.locationEnabled, text))
  }

  predicate HistoryAsks(u: HistoryUpdate, option: string, text: string) {
    || (option == "minute_days" && IntAsked(u.minuteDays, text))
    || (option == "quarter_days" && IntAsked(u.quarterDays, text))
  }

  /** Fractions are written as percent. */
  predicate LevelAsks(codec: Codec, name: AlertName, patch: RuleUpdate, option: string, text: string) {
    match name
    case OutageStarted => option == "outage_started_secs" && IntAsked(patch.holdSeconds, text)
    case DishUnreachable => option == "dish_unreachable_secs" && IntAsked(patch.holdSeconds, text)
    case PathDegraded =>
      || (option == "path_clear_secs" && IntAsked(patch.clearSeconds, text))
      || (option == "path_loss_percent" && RealAsked(codec, patch.threshold, 100.0, text))
      || (option == "path_rtt_ms" && RealAsked(codec, patch.threshold2, 1.0, text))
    case ObstructionHigh => option == "obstruction_percent" && RealAsked(codec, patch.threshold, 100.0, text)
    case _ => false
  }

  predicate RuleAsks(codec: Codec, name: AlertName, patch: RuleUpdate, option: string, text: string)
    requires !name.Unlisted?
  {
    (option == FlagOption(name) && BoolAsked(patch.enabled, text)) || LevelAsks(codec, name, patch, option, text)
  }

  predicate AlertsAsk(codec: Codec, u: AlertsUpdate, option: string, text: string) {
    || (option == "webhook_url" && u.webhookUrl == Some(text))
    || (option == "ntfy_url" && u.ntfyUrl == Some(text))
    || exists name :: name in u.rules && !name.Unlisted? && RuleAsks(codec, name, u.rules[name], option, text)
  }

  /** Setting the charge also writes the time. */
  predicate BatteryAsks(codec: Codec, u: BatteryUpdate, now: int, option: string, text: string) {
    || (option == "enabled" && BoolAsked(u.enabled, text))
    || (option == "capacity_wh" && RealAsked(codec, u.capacity, 1.0, text))
    || (option == "state_of_charge_percent" && RealAsked(codec, u.charge, 1.0, text))
    || (option == "state_of_charge_updated_at" && u.charge.Some? && text == codec.formatTime(now))
    || (option == "reserve_percent" && RealAsked(codec, u.reserve, 1.0, text))
    || (option == "conversion_efficiency_percent" && RealAsked(codec, u.efficiency, 1.0, text))
  }

  predicate Asks(codec: Codec, u: Request, now: int, p: Part, option: string, text: string) {
    match p
    case MainPart => u.main.Some? && MainAsks(u.main.value, option, text)
    case HistoryPart => u.history.Some? && HistoryAsks(u.history.value, option, text)
    case AlertsPart => u.alerts.Some? && AlertsAsk(codec, u.alerts.value, option, text)
    case BatteryPart => u.battery.Some? && BatteryAsks(codec, u.battery.value, now, option, text)
  }

  /** The options afterwards: those asked for have the text asked for, and all others are as they were. */
  ghost predicate Takes(codec: Codec, u: Request, now: int, p: Part, before: map<string, string>, after: map<string, string>) {
    && (forall option, text :: Asks(codec, u, now, p, option, text) ==> option in after && after[option] == text)
    && forall option :: (forall text :: !Asks(codec, u, now, p, option, text)) ==>
         (option in after <==> option in before) && (option in after ==> after[option] == before[option])
  }

  // ---------------------------------------------------------------- the table of settings says the same

  /** A request gives a setting of this name and section this text. */
  ghost predicate SettingAsks(codec: Codec, u: Request, now: int, p: Part, option: string, text: string) {
    exists t :: Gives(codec, u, now, p, t, option, text)
  }

  predicate Gives(codec: Codec, u: Request, now: int, p: Part, t: Setting, option: string, text: string) {
    Listed(t) && PartOf(t) == p && OptionOf(t) == option && Written(codec, u, now, t) == Some(text)
  }

  lemma GivesAsked(codec: Codec, u: Request, now: int, p: Part, t: Setting, option: string, text: string)
    requires Gives(codec, u, now, p, t, option, text)
    requires u.alerts.Some? ==> forall n :: n in u.alerts.value.rules ==> !n.Unlisted?
    ensures Asks(codec, u, now, p, option, text)
  {
    match p
    case MainPart =>
    case HistoryPart =>
    case AlertsPart => AlertGiven(codec, u.alerts.value, t, option, text);
    case BatteryPart =>
  }

  lemma AlertGiven(codec: Codec, u: AlertsUpdate, t: Setting, option: string, text: string)
    requires Listed(t) && PartOf(t) == AlertsPart && OptionOf(t) == option && WrittenAlerts(codec, u, t) == Some(text)
    ensures AlertsAsk(codec, u, option, text)
  {
    if t.RuleEnabled? {
      FlagOptionIs(t.name);
      assert RuleAsks(codec, t.name, u.rules[t.name], option, text);
    }
  }

  lemma MainAsked(u: MainUpdate, option: string, text: string) returns (t: Setting)
    requires MainAsks(u, option, text)
    ensures PartOf(t) == MainPart && OptionOf(t) == option && WrittenMain(u, t) == Some(text)
  {
    PollNames();
    ProbeNames();
    SwitchNames();
    hide OptionOf, PartOf;
    t := if option == "poll_map" && IntAsked(u.pollMap, text) then PollMap
         else if option == "probe_interval" && IntAsked(u.probeInterval, text) then ProbeInterval
         else if option == "probe_hosts" then ProbeHosts else LocationEnabled;
  }

  lemma HistoryAsked(u: HistoryUpdate, option: string, text: string) returns (t: Setting)
    requires HistoryAsks(u, option, text)
    ensures PartOf(t) == HistoryPart && OptionOf(t) == option && WrittenHistory(u, t) == Some(text)
  {
    RetentionNames();
    hide OptionOf, PartOf;
    t := if option == "minute_days" && IntAsked(u.minuteDays, text) then MinuteDays else QuarterDays;
  }

  lemma LevelAsked(codec: Codec, rules: map<AlertName, RuleUpdate>, name: AlertName, option: string, text: string) returns (t: Setting)
    requires name in rules && LevelAsks(codec, name, rules[name], option, text)
    ensures PartOf(t) == AlertsPart && !t.RuleEnabled? && !t.WebhookUrl? && !t.NtfyUrl?
    ensures OptionOf(t) == option && WrittenRules(codec, rules, t) == Some(text)
  {
    HoldNames();
    LevelNames();
    hide OptionOf, PartOf;
    match name
    case OutageStarted => t := OutageHold;
    case DishUnreachable => t := UnreachableHold;
    case PathDegraded =>
      t := if option == "path_clear_secs" && IntAsked(rules[name].clearSeconds, text) then PathClear
           else if option == "path_loss_percent" && RealAsked(codec, rules[name].threshold, 100.0, text) then PathLoss else PathRtt;
    case ObstructionHigh => t := Obstruction;
  }

  lemma AlertAsked(codec: Codec, u: AlertsUpdate, option: string, text: string) returns (t: Setting)
    requires AlertsAsk(codec, u, option, text)
    ensures Listed(t) && PartOf(t) == AlertsPart && OptionOf(t) == option && WrittenAlerts(codec, u, t) == Some(text)
  {
    UrlNames();
    hide OptionOf, PartOf, FlagOption, LevelAsks;
    if option == "webhook_url" && u.webhookUrl == Some(text) {
      t := WebhookUrl;
    } else if option == "ntfy_url" && u.ntfyUrl == Some(text) {
      t := NtfyUrl;
    } else {
      var name :| name in u.rules && !name.Unlisted? && RuleAsks(codec, name, u.rules[name], option, text);
      if LevelAsks(codec, name, u.rules[name], option, text) {
        t := LevelAsked(codec, u.rules, name, option, text);
      } else {
        FlagOptionIs(name);
        FlagPart(name);
        t := RuleEnabled(name);
      }
    }
  }

  lemma FlagPart(name: AlertName)
    ensures PartOf(RuleEnabled(name)) == AlertsPart
  {
  }

  lemma BatteryAsked(codec: Codec, u: BatteryUpdate, now: int, option: string, text: string) returns (t: Setting)
    requires BatteryAsks(codec, u, now, option, text)
    ensures PartOf(t) == BatteryPart && OptionOf(t) == option && WrittenBattery(codec, u, now, t) == Some(text)
  {
    ChargeNames();
    LimitNames();
    hide OptionOf, PartOf;
    t := if option == "enabled" && BoolAsked(u.enabled, text) then BatteryEnabled
         else if option == "capacity_wh" && RealAsked(codec, u.capacity, 1.0, text) then Capacity
         else if option == "state_of_charge_percent" && RealAsked(codec, u.charge, 1.0, text) then Charge
         else if option == "state_of_charge_updated_at" && u.charge.Some? && text == codec.formatTime(now) then ChargedAt
         else if option == "reserve_percent" && RealAsked(codec, u.reserve, 1.0, text) then Reserve else Efficiency;
  }

  lemma AskedGives(codec: Codec, u: Request, now: int, p: Part, option: string, text: string)
    requires Asks(codec, u, now, p, option, text)
    ensures SettingAsks(codec, u, now, p, option, text)
  {
    hide MainAsks, HistoryAsks, AlertsAsk, BatteryAsks, OptionOf, PartOf;
    hide WrittenMain, WrittenHistory, WrittenAlerts, WrittenBattery;
    var t;
    match p {
      case MainPart => t := MainAsked(u.main.value, option, text); Unflagged(t);
      case HistoryPart => t := HistoryAsked(u.history.value, option, text); Unflagged(t);
      case AlertsPart => t := AlertAsked(codec, u.alerts.value, option, text);
      case BatteryPart => t := BatteryAsked(codec, u.battery.value, now, option, text); Unflagged(t);
    }
    assert Gives(codec, u, now, p, t, option, text);
  }

  lemma Unflagged(t: Setting)
    requires PartOf(t) != AlertsPart
    ensures Listed(t)
  {
  }

  // ---------------------------------------------------------------- the rewritten file

  /** The new options of a section are those that the settings of the section are given. */
  lemma NewGiven(changes: seq<Change>, t: Setting)
    requires WellOrdered(changes) && Listed(t) && Lookup(changes, t).Some?
    ensures var new_ := NewOptions(ToUpdates(changes), PartOf(t).Key());
            OptionOf(t) in new_ && new_[OptionOf(t)] == Lookup(changes, t).value
  {
    var us := ToUpdates(changes);
    forall i, j | 0 <= i < j < |us| ensures IdOf(us[i]) != IdOf(us[j]) {
      SettingsApart(changes, i, j);
    }
    AbsentSetting(changes, t);
    var i :| 0 <= i < |changes| && changes[i].setting == t;
    OrderedAt(changes, i);
    hide OptionOf, PartOf, Lookup, WellOrdered, Part.Key, NewOptions;
    assert us[i] in us;
    OptionsOf(us, us[i]);
  }

  lemma GivenNew(changes: seq<Change>, p: Part, option: string) returns (t: Setting)
    requires WellOrdered(changes) && option in NewOptions(ToUpdates(changes), p.Key())
    ensures Listed(t) && PartOf(t) == p && OptionOf(t) == option && Lookup(changes, t).Some?
  {
    var us := ToUpdates(changes);
    var u :| u in us && u.key == p.Key() && u.option == option;
    var i :| 0 <= i < |us| && us[i] == u;
    hide OptionOf, PartOf, Lookup, WellOrdered, Part.Key, NewOptions;
    OrderedAt(changes, i);
    t := changes[i].setting;
    PartKeysDiffer(PartOf(t), p);
  }

  lemma SectionTakes(codec: Codec, u: Request, now: int, changes: seq<Change>, p: Part, before: map<string, string>)
    requires Meant(codec, u, now, changes)
    ensures Takes(codec, u, now, p, before, before + NewOptions(ToUpdates(changes), p.Key()))
  {
    hide Asks, Written, OptionOf, PartOf, Lookup, WellOrdered, Part.Key, NewOptions, ToUpdates;
    var new_ := NewOptions(ToUpdates(changes), p.Key());
    forall option, text | Asks(codec, u, now, p, option, text) ensures option in new_ && new_[option] == text {
      AskedGives(codec, u, now, p, option, text);
      var t :| Gives(codec, u, now, p, t, option, text);
      NewGiven(changes, t);
    }
    forall option | option in new_ ensures exists text :: Asks(codec, u, now, p, option, text) {
      var t := GivenNew(changes, p, option);
      var text := Lookup(changes, t).value;
      assert Gives(codec, u, now, p, t, option, text);
      GivesAsked(codec, u, now, p, t, option, text);
    }
  }

  lemma SectionAfter(codec: Codec, u: Request, now: int, changes: seq<Change>, doc: Document, p: Part, before: map<string, string>)
    returns (after: map<string, string>)
    requires Meant(codec, u, now, changes) && SectionOf(doc, p, before)
    ensures SectionOf(Expected(ToUpdates(changes), doc), p, after) && Takes(codec, u, now, p, before, after)
  {
    hide Meant, Expected, ToUpdates, OptionsAt, SectionIs, Takes, NewOptions;
    var us, key := ToUpdates(changes), p.Key();
    SectionOptions(doc, key.typ, key.name, before);
    ExpectedRead(us, doc, key);
    after := before + NewOptions(us, key);
    SectionOptions(Expected(us, doc), key.typ, key.name, after);
    SectionTakes(codec, u, now, changes, p, before);
  }

  /** After an accepted request the file parses, and in each of the four sections the options the request names
      have exactly the texts it asks for, and no other option is touched. */
  lemma UpdateWrites(codec: Codec, s: Held, u: Request, now: int, s': Held, main: map<string, string>,
                     history: map<string, string>, alerts: map<string, string>, battery: map<string, string>)
    returns (main': map<string, string>, history': map<string, string>, alerts': map<string, string>, battery': map<string, string>)
    requires RequestPrints(codec, u, now) && CatalogOnly(s.config) && !Refused(s.config, u) && HostsFit(u)
    requires Step(codec, s, Event.Change(u, now, true), s')
    requires Parse(s.source).Parsed? && Sections(Parse(s.source).doc, main, history, alerts, battery)
    ensures Parse(s'.source).Parsed? && Sections(Parse(s'.source).doc, main', history', alerts', battery')
    ensures Takes(codec, u, now, MainPart, main, main') && Takes(codec, u, now, HistoryPart, history, history')
    ensures Takes(codec, u, now, AlertsPart, alerts, alerts') && Takes(codec, u, now, BatteryPart, battery, battery')
  {
    var order :|
      && (u.alerts.Some? ==> Visits(order, u.alerts.value.rules.Keys))
      && s'.source == Rewrite(s.source, ToUpdates(Changes(codec, u, now, order)));
    var doc := Parse(s.source).doc;
    var changes := ChangesWritten(codec, s.source, s.config, u, now, order);
    SectionsByPart(doc, main, history, alerts, battery);
    hide Refused, Rewrite, Parse, Changes, Visits, SectionOf, Sections, Expected, RequestPrints, HostsFit, Takes, Step, ToUpdates;
    hide Meant, CatalogOnly;
    main' := SectionAfter(codec, u, now, changes, doc, MainPart, main);
    history' := SectionAfter(codec, u, now, changes, doc, HistoryPart, history);
    alerts' := SectionAfter(codec, u, now, changes, doc, AlertsPart, alerts);
    battery' := SectionAfter(codec, u, now, changes, doc, BatteryPart, battery);
    SectionsByPart(Expected(ToUpdates(changes), doc), main', history', alerts', battery');
  }

  ghost predicate SectionOf(doc: Document, p: Part, options: map<string, string>) {
    SectionIs(doc, p.Key().typ, p.Key().name, options)
  }

  lemma SectionsByPart(doc: Document, main: map<string, string>, history: map<string, string>,
                       alerts: map<string, string>, battery: map<string, string>)
    ensures Sections(doc, main, history, alerts, battery)
       <==> && SectionOf(doc, MainPart, main) && SectionOf(doc, HistoryPart, history)
            && SectionOf(doc, AlertsPart, alerts) && SectionOf(doc, BatteryPart, battery)
  {
    hide SectionIs;
  }

  /** A change list that is in order and says what the request gives each setting. */
  ghost predicate Meant(codec: Codec, u: Request, now: int, changes: seq<Change>) {
    && WellOrdered(changes) && (forall t :: Lookup(changes, t) == Written(codec, u, now, t))
    && (u.alerts.Some? ==> forall n :: n in u.alerts.value.rules ==> !n.Unlisted?)
  }

  lemma ChangesWritten(codec: Codec, source: string, cfg: Config, u: Request, now: int, order: seq<AlertName>)
    returns (changes: seq<Change>)
    requires RequestPrints(codec, u, now) && CatalogOnly(cfg) && Parse(source).Parsed? && !Refused(cfg, u) && HostsFit(u)
    requires u.alerts.Some? ==> Visits(order, u.alerts.value.rules.Keys)
    ensures changes == Changes(codec, u, now, order) && Meant(codec, u, now, changes)
    ensures Parse(Rewrite(source, ToUpdates(changes))) == Parsed(Expected(ToUpdates(changes), Parse(source).doc))
  {
    if u.alerts.Some? {
      RefusalKeepsNames(cfg, u);
    }
    hide Refused, Rewrite, Parse, Changes, Visits, Written, Expected, RequestPrints, HostsFit, Lookup, WellOrdered, ToUpdates;
    changes := Changes(codec, u, now, order);
    ChangeWritten(codec, source, cfg, u, now, order);
    forall t ensures Lookup(changes, t) == Written(codec, u, now, t) {
      ChangesMeaning(codec, u, now, order, t);
    }
  }
}
