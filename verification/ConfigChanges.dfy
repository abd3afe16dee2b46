/** What a request's change list says, setting by setting, and that it is a list the rewriter handles:
    no setting twice, writable names, each section's changes together. */
module ConfigChanges {
  import opened Basics
  import opened Uci
  import opened UciRewriting
  import opened UciTheorems
  import opened ConfigText
  import opened Config
  import opened ConfigNames
  import opened ConfigManager

  // ---------------------------------------------------------------- one section at a time

  lemma MainLookup(u: MainUpdate, t: Setting)
    ensures Lookup(MainChanges([], u), t) == WrittenMain(u, t)
  {
    var a := Add([], PollMap, IntText(u.pollMap));
    var b := Add(a, ProbeInterval, IntText(u.probeInterval));
    var c := Add(b, ProbeHosts, HostsText(u.probeHosts));
    AddLookup([], PollMap, IntText(u.pollMap), t);
    AddLookup(a, ProbeInterval, IntText(u.probeInterval), t);
    AddLookup(b, ProbeHosts, HostsText(u.probeHosts), t);
    AddLookup(c, LocationEnabled, BoolText(u.locationEnabled), t);
  }

  /** Adding one more setting of the current section keeps the list in order. */
  lemma AddNext(changes: seq<Change>, s: Setting, text: Option<string>, p: Part)
    requires WellOrdered(changes) && UpTo(changes, p) && PartOf(s) == p && Listed(s) && Lookup(changes, s).None?
    ensures WellOrdered(Add(changes, s, text)) && UpTo(Add(changes, s, text), p)
    ensures forall t :: t != s ==> Lookup(Add(changes, s, text), t) == Lookup(changes, t)
  {
    AddOrdered(changes, s, text);
    forall t | t != s ensures Lookup(Add(changes, s, text), t) == Lookup(changes, t) {
      AddLookup(changes, s, text, t);
    }
  }

  lemma MainOrdered(u: MainUpdate)
    ensures WellOrdered(MainChanges([], u)) && UpTo(MainChanges([], u), MainPart)
  {
    var poll, interval, hosts := IntText(u.pollMap), IntText(u.probeInterval), HostsText(u.probeHosts);
    var a := Add([], PollMap, poll);
    var b := Add(a, ProbeInterval, interval);
    AddNext([], PollMap, poll, MainPart);
    AddNext(a, ProbeInterval, interval, MainPart);
    AddNext(b, ProbeHosts, hosts, MainPart);
    AddNext(Add(b, ProbeHosts, hosts), LocationEnabled, BoolText(u.locationEnabled), MainPart);
  }

  /** A list that stops before a section says nothing about it. */
  lemma {:induction false} LaterAbsent(changes: seq<Change>, t: Setting)
    requires WellOrdered(changes) && TopRank(changes) < PartOf(t).Rank()
    ensures Lookup(changes, t).None?
  {
    if changes != [] {
      LaterAbsent(Front(changes), t);
    }
  }

  lemma HistoryLookup(changes: seq<Change>, u: HistoryUpdate, t: Setting)
    ensures Lookup(HistoryChanges(changes, u), t) ==
            if WrittenHistory(u, t).Some? then WrittenHistory(u, t) else Lookup(changes, t)
  {
    AddLookup(changes, MinuteDays, IntText(u.minuteDays), t);
    AddLookup(Add(changes, MinuteDays, IntText(u.minuteDays)), QuarterDays, IntText(u.quarterDays), t);
  }

  lemma HistoryOrdered(changes: seq<Change>, u: HistoryUpdate)
    requires WellOrdered(changes) && UpTo(changes, MainPart)
    ensures WellOrdered(HistoryChanges(changes, u)) && UpTo(HistoryChanges(changes, u), HistoryPart)
  {
    LaterAbsent(changes, MinuteDays);
    LaterAbsent(changes, QuarterDays);
    AddNext(changes, MinuteDays, IntText(u.minuteDays), HistoryPart);
    AddNext(Add(changes, MinuteDays, IntText(u.minuteDays)), QuarterDays, IntText(u.quarterDays), HistoryPart);
  }

  lemma BatteryLookup(codec: Codec, changes: seq<Change>, u: BatteryUpdate, now: int, t: Setting)
    ensures Lookup(BatteryChanges(codec, changes, u, now), t) ==
            if WrittenBattery(codec, u, now, t).Some? then WrittenBattery(codec, u, now, t) else Lookup(changes, t)
  {
    hide Lookup;
    hide Add;
    var a := Add(changes, BatteryEnabled, BoolText(u.enabled));
    var b := Add(a, Capacity, RealText(codec, u.capacity, 1.0));
    var c := Add(b, Charge, RealText(codec, u.charge, 1.0));
    var d := Add(c, ChargedAt, TimeText(codec, u.charge.Some?, now));
    var e := Add(d, Reserve, RealText(codec, u.reserve, 1.0));
    AddLookup(changes, BatteryEnabled, BoolText(u.enabled), t);
    AddLookup(a, Capacity, RealText(codec, u.capacity, 1.0), t);
    AddLookup(b, Charge, RealText(codec, u.charge, 1.0), t);
    AddLookup(c, ChargedAt, TimeText(codec, u.charge.Some?, now), t);
    AddLookup(d, Reserve, RealText(codec, u.reserve, 1.0), t);
    AddLookup(e, Efficiency, RealText(codec, u.efficiency, 1.0), t);
  }

  /** Two settings of one section, one after the other. */
  lemma AddPair(changes: seq<Change>, s: Setting, t: Setting, a: Option<string>, b: Option<string>, p: Part)
    requires WellOrdered(changes) && UpTo(changes, p) && PartOf(s) == PartOf(t) == p && Listed(s) && Listed(t) && s != t
    requires Lookup(changes, s).None? && Lookup(changes, t).None?
    ensures var r := Add(Add(changes, s, a), t, b);
            && WellOrdered(r) && UpTo(r, p)
            && forall u :: u != s && u != t ==> Lookup(r, u) == Lookup(changes, u)
  {
    AddNext(changes, s, a, p);
    AddNext(Add(changes, s, a), t, b, p);
  }

  lemma BatteryTexts(changes: seq<Change>, enabled: Option<string>, capacity: Option<string>, charge: Option<string>,
                     at: Option<string>, reserve: Option<string>, efficiency: Option<string>)
    requires WellOrdered(changes) && UpTo(changes, BatteryPart)
    requires forall t :: PartOf(t) == BatteryPart ==> Lookup(changes, t).None?
    ensures var b := Add(Add(changes, BatteryEnabled, enabled), Capacity, capacity);
            var d := Add(Add(b, Charge, charge), ChargedAt, at);
            WellOrdered(Add(Add(d, Reserve, reserve), Efficiency, efficiency))
  {
    hide Lookup, WellOrdered, Add, UpTo;
    BatteryFront(changes, enabled, capacity, charge, at);
    var d := Add(Add(Add(Add(changes, BatteryEnabled, enabled), Capacity, capacity), Charge, charge), ChargedAt, at);
    AddPair(d, Reserve, Efficiency, reserve, efficiency, BatteryPart);
  }

  lemma BatteryFront(changes: seq<Change>, enabled: Option<string>, capacity: Option<string>, charge: Option<string>,
                     at: Option<string>)
    requires WellOrdered(changes) && UpTo(changes, BatteryPart)
    requires forall t :: PartOf(t) == BatteryPart ==> Lookup(changes, t).None?
    ensures var d := Add(Add(Add(Add(changes, BatteryEnabled, enabled), Capacity, capacity), Charge, charge), ChargedAt, at);
            WellOrdered(d) && UpTo(d, BatteryPart) && Lookup(d, Reserve).None? && Lookup(d, Efficiency).None?
  {
    hide Lookup, WellOrdered, Add, UpTo;
    AddPair(changes, BatteryEnabled, Capacity, enabled, capacity, BatteryPart);
    var b := Add(Add(changes, BatteryEnabled, enabled), Capacity, capacity);
    AddPair(b, Charge, ChargedAt, charge, at, BatteryPart);
  }

  lemma BatteryOrdered(codec: Codec, changes: seq<Change>, u: BatteryUpdate, now: int)
    requires WellOrdered(changes) && UpTo(changes, AlertsPart)
    ensures WellOrdered(BatteryChanges(codec, changes, u, now))
  {
    forall t | PartOf(t) == BatteryPart ensures Lookup(changes, t).None? {
      LaterAbsent(changes, t);
    }
    BatteryTexts(changes, BoolText(u.enabled), RealText(codec, u.capacity, 1.0), RealText(codec, u.charge, 1.0),
                 TimeText(codec, u.charge.Some?, now), RealText(codec, u.reserve, 1.0), RealText(codec, u.efficiency, 1.0));
  }

  // ---------------------------------------------------------------- the alert rules, in any order

  /** The text one rule's patch gives a setting. */
  function WrittenRule(codec: Codec, name: AlertName, patch: RuleUpdate, s: Setting): Option<string> {
    if s == RuleEnabled(name) then BoolText(patch.enabled)
    else if Some(s) == ThresholdSetting(name, false) then RealText(codec, patch.threshold, 100.0)
    else if Some(s) == ThresholdSetting(name, true) then RealText(codec, patch.threshold2, 1.0)
    else if Some(s) == HoldSetting(name, false) then IntText(patch.holdSeconds)
    else if Some(s) == HoldSetting(name, true) then IntText(patch.clearSeconds)
    else None
  }

  /** The rule a setting belongs to. */
  function OwnerOf(s: Setting): Option<AlertName> {
    match s
    case RuleEnabled(n) => Some(n)
    case PathLoss | PathRtt | PathClear => Some(PathDegraded)
    case Obstruction => Some(ObstructionHigh)
    case OutageHold => Some(OutageStarted)
    case UnreachableHold => Some(DishUnreachable)
    case _ => None
  }

  lemma AddMaybeLookup(changes: seq<Change>, s: Option<Setting>, text: Option<string>, t: Setting)
    ensures Lookup(AddMaybe(changes, s, text), t) == if Some(t) == s && text.Some? then text else Lookup(changes, t)
  {
    if s.Some? {
      AddLookup(changes, s.value, text, t);
    }
  }

  lemma RuleLookup(codec: Codec, changes: seq<Change>, name: AlertName, patch: RuleUpdate, t: Setting)
    ensures var w := WrittenRule(codec, name, patch, t);
            && Lookup(RuleChanges(codec, changes, name, patch), t) == (if w.Some? then w else Lookup(changes, t))
            && (w.Some? ==> OwnerOf(t) == Some(name))
  {
    var loss, rtt, hold := ThresholdSetting(name, false), ThresholdSetting(name, true), HoldSetting(name, false);
    var a := Add(changes, RuleEnabled(name), BoolText(patch.enabled));
    var b := AddMaybe(a, loss, RealText(codec, patch.threshold, 100.0));
    var c := AddMaybe(b, rtt, RealText(codec, patch.threshold2, 1.0));
    var d := AddMaybe(c, hold, IntText(patch.holdSeconds));
    AddLookup(changes, RuleEnabled(name), BoolText(patch.enabled), t);
    AddMaybeLookup(a, loss, RealText(codec, patch.threshold, 100.0), t);
    AddMaybeLookup(b, rtt, RealText(codec, patch.threshold2, 1.0), t);
    AddMaybeLookup(c, hold, IntText(patch.holdSeconds), t);
    AddMaybeLookup(d, HoldSetting(name, true), IntText(patch.clearSeconds), t);
  }

  lemma AddMaybeNext(changes: seq<Change>, s: Option<Setting>, text: Option<string>)
    requires WellOrdered(changes) && UpTo(changes, AlertsPart)
    requires s.Some? ==> PartOf(s.value) == AlertsPart && Listed(s.value) && Lookup(changes, s.value).None?
    ensures WellOrdered(AddMaybe(changes, s, text)) && UpTo(AddMaybe(changes, s, text), AlertsPart)
    ensures forall t :: Some(t) != s ==> Lookup(AddMaybe(changes, s, text), t) == Lookup(changes, t)
  {
    if s.Some? {
      AddNext(changes, s.value, text, AlertsPart);
    }
  }

  /** The settings of one rule are different settings of its own. */
  lemma RuleSettings(name: AlertName)
    ensures var loss, rtt, hold, clear := ThresholdSetting(name, false), ThresholdSetting(name, true),
                                          HoldSetting(name, false), HoldSetting(name, true);
            && (forall s :: s in [loss, rtt, hold, clear] && s.Some? ==>
                  OwnerOf(s.value) == Some(name) && PartOf(s.value) == AlertsPart && Listed(s.value) && s.value != RuleEnabled(name))
            && (loss.Some? ==> loss != rtt && loss != hold && loss != clear)
            && (rtt.Some? ==> rtt != hold && rtt != clear)
            && (hold.Some? ==> hold != clear)
  {
  }

  lemma AddMaybePair(changes: seq<Change>, s: Option<Setting>, t: Option<Setting>, a: Option<string>, b: Option<string>)
    requires WellOrdered(changes) && UpTo(changes, AlertsPart)
    requires s.Some? ==> PartOf(s.value) == AlertsPart && Listed(s.value) && Lookup(changes, s.value).None? && s != t
    requires t.Some? ==> PartOf(t.value) == AlertsPart && Listed(t.value) && Lookup(changes, t.value).None?
    ensures var r := AddMaybe(AddMaybe(changes, s, a), t, b);
            && WellOrdered(r) && UpTo(r, AlertsPart)
            && forall u :: Some(u) != s && Some(u) != t ==> Lookup(r, u) == Lookup(changes, u)
  {
    AddMaybeNext(changes, s, a);
    AddMaybeNext(AddMaybe(changes, s, a), t, b);
  }

  lemma RuleOrdered(codec: Codec, changes: seq<Change>, name: AlertName, patch: RuleUpdate)
    requires !name.Unlisted? && WellOrdered(changes) && UpTo(changes, AlertsPart)
    requires forall t :: OwnerOf(t) == Some(name) ==> Lookup(changes, t).None?
    ensures WellOrdered(RuleChanges(codec, changes, name, patch)) && UpTo(RuleChanges(codec, changes, name, patch), AlertsPart)
  {
    hide Lookup;
    hide WellOrdered;
    hide Add;
    hide AddMaybe;
    var loss, rtt := ThresholdSetting(name, false), ThresholdSetting(name, true);
    var hold, clear := HoldSetting(name, false), HoldSetting(name, true);
    var first, second := RealText(codec, patch.threshold, 100.0), RealText(codec, patch.threshold2, 1.0);
    var a := Add(changes, RuleEnabled(name), BoolText(patch.enabled));
    RuleSettings(name);
    assert loss in [loss, rtt, hold, clear] && rtt in [loss, rtt, hold, clear];
    assert hold in [loss, rtt, hold, clear] && clear in [loss, rtt, hold, clear];
    AddNext(changes, RuleEnabled(name), BoolText(patch.enabled), AlertsPart);
    AddMaybePair(a, loss, rtt, first, second);
    AddMaybePair(AddMaybe(AddMaybe(a, loss, first), rtt, second), hold, clear,
                 IntText(patch.holdSeconds), IntText(patch.clearSeconds));
  }

  lemma {:induction false} RulesLookup(codec: Codec, changes: seq<Change>, patches: map<AlertName, RuleUpdate>, order: seq<AlertName>, t: Setting)
    requires forall i :: 0 <= i < |order| ==> order[i] in patches
    ensures Lookup(RulesChanges(codec, changes, patches, order), t) ==
            match OwnerOf(t) {
              case Some(n) =>
                if n in order && WrittenRule(codec, n, patches[n], t).Some? then WrittenRule(codec, n, patches[n], t)
                else Lookup(changes, t)
              case None => Lookup(changes, t)
            }
  {
    hide RuleChanges, WrittenRule, Lookup, OwnerOf;
    if order != [] {
      var before, name := RulesChanges(codec, changes, patches, Front(order)), Last(order);
      RulesLookup(codec, changes, patches, Front(order), t);
      RuleLookup(codec, before, name, patches[name], t);
      assert forall n :: n in order <==> n in Front(order) || n == name;
    }
  }

  lemma {:induction false} RulesOrdered(codec: Codec, changes: seq<Change>, patches: map<AlertName, RuleUpdate>, order: seq<AlertName>)
    requires WellOrdered(changes) && UpTo(changes, AlertsPart)
    requires forall t :: OwnerOf(t).Some? ==> Lookup(changes, t).None?
    requires forall i :: 0 <= i < |order| ==> order[i] in patches && !order[i].Unlisted?
    requires forall i, j :: 0 <= i < j < |order| ==> order[i] != order[j]
    ensures WellOrdered(RulesChanges(codec, changes, patches, order))
    ensures UpTo(RulesChanges(codec, changes, patches, order), AlertsPart)
  {
    if order != [] {
      var before, name := RulesChanges(codec, changes, patches, Front(order)), Last(order);
      RulesOrdered(codec, changes, patches, Front(order));
      forall t | OwnerOf(t) == Some(name) ensures Lookup(before, t).None? {
        RulesLookup(codec, changes, patches, Front(order), t);
      }
      RuleOrdered(codec, before, name, patches[name]);
    }
  }

  lemma UrlLookup(changes: seq<Change>, u: AlertsUpdate, t: Setting)
    ensures Lookup(UrlChanges(changes, u), t) ==
            if t == WebhookUrl && u.webhookUrl.Some? then u.webhookUrl
            else if t == NtfyUrl && u.ntfyUrl.Some? then u.ntfyUrl else Lookup(changes, t)
  {
    AddLookup(changes, WebhookUrl, u.webhookUrl, t);
    AddLookup(Add(changes, WebhookUrl, u.webhookUrl), NtfyUrl, u.ntfyUrl, t);
  }

  lemma WrittenByOwner(codec: Codec, patches: map<AlertName, RuleUpdate>, t: Setting)
    ensures WrittenRules(codec, patches, t) ==
            match OwnerOf(t) {
              case Some(n) => if n in patches then WrittenRule(codec, n, patches[n], t) else None
              case None => None
            }
  {
  }

  lemma AlertsLookup(codec: Codec, changes: seq<Change>, u: AlertsUpdate, order: seq<AlertName>, t: Setting)
    requires Visits(order, u.rules.Keys)
    ensures Lookup(RulesChanges(codec, UrlChanges(changes, u), u.rules, order), t) ==
            if WrittenAlerts(codec, u, t).Some? then WrittenAlerts(codec, u, t) else Lookup(changes, t)
  {
    RulesLookup(codec, UrlChanges(changes, u), u.rules, order, t);
    UrlLookup(changes, u, t);
    WrittenByOwner(codec, u.rules, t);
  }

  lemma AlertsOrdered(codec: Codec, changes: seq<Change>, u: AlertsUpdate, order: seq<AlertName>)
    requires WellOrdered(changes) && UpTo(changes, HistoryPart)
    requires Visits(order, u.rules.Keys) && forall n :: n in u.rules ==> !n.Unlisted?
    ensures var r := RulesChanges(codec, UrlChanges(changes, u), u.rules, order); WellOrdered(r) && UpTo(r, AlertsPart)
  {
    LaterAbsent(changes, WebhookUrl);
    LaterAbsent(changes, NtfyUrl);
    AddNext(changes, WebhookUrl, u.webhookUrl, AlertsPart);
    AddNext(Add(changes, WebhookUrl, u.webhookUrl), NtfyUrl, u.ntfyUrl, AlertsPart);
    forall t | OwnerOf(t).Some? ensures Lookup(UrlChanges(changes, u), t).None? {
      LaterAbsent(changes, t);
      UrlLookup(changes, u, t);
    }
    RulesOrdered(codec, UrlChanges(changes, u), u.rules, order);
  }

  // ---------------------------------------------------------------- a whole request

  function AfterMain(u: Request): seq<Change> { if u.main.Some? then MainChanges([], u.main.value) else [] }

  function AfterHistory(u: Request): seq<Change> {
    if u.history.Some? then HistoryChanges(AfterMain(u), u.history.value) else AfterMain(u)
  }

  ghost function AfterAlerts(codec: Codec, u: Request, order: seq<AlertName>): seq<Change>
    requires u.alerts.Some? ==> Visits(order, u.alerts.value.rules.Keys)
  {
    if u.alerts.Some? then RulesChanges(codec, UrlChanges(AfterHistory(u), u.alerts.value), u.alerts.value.rules, order)
    else AfterHistory(u)
  }

  lemma ChangesOrdered(codec: Codec, u: Request, now: int, order: seq<AlertName>)
    requires u.alerts.Some? ==> Visits(order, u.alerts.value.rules.Keys)
    requires u.alerts.Some? ==> forall n :: n in u.alerts.value.rules ==> !n.Unlisted?
    ensures WellOrdered(Changes(codec, u, now, order))
  {
    if u.main.Some? {
      MainOrdered(u.main.value);
    }
    if u.history.Some? {
      HistoryOrdered(AfterMain(u), u.history.value);
    }
    if u.alerts.Some? {
      AlertsOrdered(codec, AfterHistory(u), u.alerts.value, order);
    }
    if u.battery.Some? {
      BatteryOrdered(codec, AfterAlerts(codec, u, order), u.battery.value, now);
    }
  }

  lemma OneSection(codec: Codec, u: Request, now: int, t: Setting)
    ensures u.main.Some? && WrittenMain(u.main.value, t).Some? ==> PartOf(t) == MainPart
    ensures u.history.Some? && WrittenHistory(u.history.value, t).Some? ==> PartOf(t) == HistoryPart
    ensures u.alerts.Some? && WrittenAlerts(codec, u.alerts.value, t).Some? ==> PartOf(t) == AlertsPart
    ensures u.battery.Some? && WrittenBattery(codec, u.battery.value, now, t).Some? ==> PartOf(t) == BatteryPart
  {
  }

  lemma NothingLooked(t: Setting)
    ensures Lookup([], t).None?
  {
  }

  /** The change list of a request says exactly what the request means, whatever the order in which the
      rules were visited. */
  lemma ChangesMeaning(codec: Codec, u: Request, now: int, order: seq<AlertName>, t: Setting)
    requires u.alerts.Some? ==> Visits(order, u.alerts.value.rules.Keys)
    ensures Lookup(Changes(codec, u, now, order), t) == Written(codec, u, now, t)
  {
    hide Lookup, MainChanges, HistoryChanges, RulesChanges, BatteryChanges, UrlChanges;
    hide WrittenMain, WrittenHistory, WrittenAlerts, WrittenBattery, Visits;
    OneSection(codec, u, now, t);
    NothingLooked(t);
    if u.main.Some? {
      MainLookup(u.main.value, t);
    }
    if u.history.Some? {
      HistoryLookup(AfterMain(u), u.history.value, t);
    }
    if u.alerts.Some? {
      AlertsLookup(codec, AfterHistory(u), u.alerts.value, order, t);
    }
    if u.battery.Some? {
      BatteryLookup(codec, AfterAlerts(codec, u, order), u.battery.value, now, t);
    }
  }

  // ---------------------------------------------------------------- the list as rewriter updates

  lemma {:induction false} OrderedPair(changes: seq<Change>, i: nat, j: nat)
    requires WellOrdered(changes) && i < j < |changes|
    ensures changes[i].setting != changes[j].setting
    ensures PartOf(changes[i].setting).Rank() <= PartOf(changes[j].setting).Rank()
  {
    if j < |changes| - 1 {
      OrderedPair(Front(changes), i, j);
    } else {
      AbsentSetting(Front(changes), changes[j].setting);
      assert Front(changes)[i] == changes[i];
      if i < j - 1 {
        OrderedPair(Front(changes), i, j - 1);
      }
    }
  }

  lemma {:induction false} AbsentSetting(changes: seq<Change>, s: Setting)
    ensures Lookup(changes, s).None? <==> forall i :: 0 <= i < |changes| ==> changes[i].setting != s
  {
    if changes != [] {
      AbsentSetting(Front(changes), s);
      assert forall i :: 0 <= i < |changes| - 1 ==> Front(changes)[i] == changes[i];
      assert changes[|changes| - 1] == Last(changes);
    }
  }

  lemma {:induction false} OrderedAt(changes: seq<Change>, i: nat)
    requires WellOrdered(changes) && i < |changes|
    ensures Listed(changes[i].setting) && Lookup(changes, changes[i].setting) == Some(changes[i].text)
  {
    if i < |changes| - 1 {
      OrderedAt(Front(changes), i);
      OrderedPair(changes, i, |changes| - 1);
    }
  }

  lemma UpdatesProper(changes: seq<Change>)
    requires WellOrdered(changes) && forall i :: 0 <= i < |changes| ==> '\n' !in changes[i].text
    ensures Proper(ToUpdates(changes))
  {
    var us := ToUpdates(changes);
    forall i | 0 <= i < |us| ensures Writable(us[i]) {
      OrderedAt(changes, i);
      OptionIsWord(changes[i].setting);
      WordIsPlain(us[i].option);
      KeyIsPlain(PartOf(changes[i].setting));
    }
    forall i, j | 0 <= i < j < |us| ensures IdOf(us[i]) != IdOf(us[j]) {
      SettingsApart(changes, i, j);
    }
  }

  lemma SettingsApart(changes: seq<Change>, i: nat, j: nat)
    requires WellOrdered(changes) && i < j < |changes|
    ensures IdOf(ToUpdate(changes[i])) != IdOf(ToUpdate(changes[j]))
  {
    OrderedPair(changes, i, j);
    OrderedAt(changes, i);
    OrderedAt(changes, j);
    var a, b := changes[i].setting, changes[j].setting;
    if PartOf(a).Key() == PartOf(b).Key() && OptionOf(a) == OptionOf(b) {
      PartKeysDiffer(PartOf(a), PartOf(b));
      OptionsDiffer(a, b);
    }
  }

  lemma {:induction false} AbsentParts(changes: seq<Change>, present: set<Key>, n: nat) returns (parts: seq<Part>)
    requires WellOrdered(changes) && n <= |changes|
    ensures var keys := AbsentKeys(ToUpdates(changes)[..n], present);
            |parts| == |keys| && forall q :: 0 <= q < |keys| ==> keys[q] == parts[q].Key()
    ensures forall q, r :: 0 <= q < r < |parts| ==> parts[q].Rank() < parts[r].Rank()
    ensures forall q :: 0 <= q < |parts| ==> exists i :: 0 <= i < n && PartOf(changes[i].setting) == parts[q]
  {
    var us := ToUpdates(changes);
    parts := [];
    if n > 0 {
      var m := n - 1;
      PrefixStep(us, m);
      parts := AbsentParts(changes, present, m);
      var p := PartOf(changes[m].setting);
      var keys := AbsentKeys(us[..m], present);
      if us[m].key !in present && us[m].key !in keys {
        forall q | 0 <= q < |parts| ensures parts[q].Rank() < p.Rank() {
          var i :| 0 <= i < m && PartOf(changes[i].setting) == parts[q];
          OrderedPair(changes, i, m);
          assert keys[q] == parts[q].Key();
        }
        parts := parts + [p];
      }
    }
  }

  lemma UpdatesGrouped(changes: seq<Change>, present: set<Key>)
    requires WellOrdered(changes)
    ensures Grouped(ToUpdates(changes), present)
  {
    var us := ToUpdates(changes);
    hide Follows;
    forall n | 0 <= n < |us| ensures Follows(us, present, n) {
      UpdateFollows(changes, present, n);
    }
  }

  lemma UpdateFollows(changes: seq<Change>, present: set<Key>, n: nat)
    requires WellOrdered(changes) && n < |changes|
    ensures Follows(ToUpdates(changes), present, n)
  {
    hide WellOrdered;
    var us := ToUpdates(changes);
    var before := AbsentKeys(us[..n], present);
    if us[n].key in before {
      var parts := AbsentParts(changes, present, n);
      var q :| 0 <= q < |before| && before[q] == us[n].key;
      PartKeysDiffer(parts[q], PartOf(changes[n].setting));
      var last := |parts| - 1;
      var i :| 0 <= i < n && PartOf(changes[i].setting) == parts[last];
      OrderedPair(changes, i, n);
      hide AbsentKeys;
      assert parts[last].Rank() <= parts[q].Rank();
      assert q == last;
    }
  }

  /** Reading a setting after the rewrite: the new text if the list has one, the old text otherwise. */
  lemma UpdatesRead(changes: seq<Change>, doc: Document, s: Setting)
    requires WellOrdered(changes) && Listed(s)
    ensures Text(Expected(ToUpdates(changes), doc), s) ==
            if Lookup(changes, s).Some? then Lookup(changes, s).value else Text(doc, s)
  {
    var us, key := ToUpdates(changes), PartOf(s).Key();
    ExpectedRead(us, doc, key);
    forall i, j | 0 <= i < j < |us| ensures IdOf(us[i]) != IdOf(us[j]) {
      SettingsApart(changes, i, j);
    }
    AbsentSetting(changes, s);
    if Lookup(changes, s).Some? {
      var i :| 0 <= i < |changes| && changes[i].setting == s;
      OrderedAt(changes, i);
      assert us[i] in us;
      OptionsOf(us, us[i]);
    } else {
      UnnamedSetting(changes, s);
    }
  }

  lemma UnnamedSetting(changes: seq<Change>, s: Setting)
    requires WellOrdered(changes) && Listed(s) && forall i :: 0 <= i < |changes| ==> changes[i].setting != s
    ensures OptionOf(s) !in NewOptions(ToUpdates(changes), PartOf(s).Key())
  {
    var us := ToUpdates(changes);
    forall u | u in us && u.key == PartOf(s).Key() ensures u.option != OptionOf(s) {
      var i :| 0 <= i < |us| && us[i] == u;
      OrderedAt(changes, i);
      PartKeysDiffer(PartOf(changes[i].setting), PartOf(s));
      if u.option == OptionOf(s) {
        OptionsDiffer(changes[i].setting, s);
      }
    }
  }
}
